/**
 Whole runs of the group host with its journal and database: operations, committed and failed persists, and
 restarts in any order.
 */
module GroupDurability {
  import opened Basics
  import opened GroupState
  import opened GroupLaws
  import opened GroupJournal

  datatype World = World(host: Host, db: Tables)

  datatype Event =
    | Did(op: Op)
    | Persisted
    | PersistFailed
    | Restarted

  // ------------------------------------------------------------------- loading

  /** The rows of one group, by the second part of their key. */
  function Under<V>(rows: map<(Key, Key), V>, gid: Key): (r: map<Key, V>)
    ensures forall n :: Get(r, n) == Get(rows, (gid, n))
  {
    var keys := set k | k in rows && k.0 == gid :: k.1;
    assert forall n :: (gid, n) in rows ==> n in keys;
    map n | n in keys && (gid, n) in rows :: rows[(gid, n)]
  }

  /** The sequence numbers stored for one group. */
  function SeqsOf(rows: map<(Key, nat), StreamRow>, gid: Key): (r: set<nat>)
    ensures forall s :: s in r <==> (gid, s) in rows
  {
    var r := set k | k in rows && k.0 == gid :: k.1;
    assert forall s :: (gid, s) in rows ==> s in r;
    r
  }

  /** Rows in sequence order; the number is the key column. */
  ghost function InOrder(rows: map<(Key, nat), StreamRow>, gid: Key, seqs: set<nat>): seq<StreamRow>
    requires forall s :: s in seqs ==> (gid, s) in rows
    decreases |seqs|
  {
    if seqs == {} then []
    else
      var s := LeastKey(seqs);
      [rows[(gid, s)].(seqNo := s)] + InOrder(rows, gid, seqs - {s})
  }

  ghost function LoadedGroup(db: Tables, gid: Key): Group
    requires gid in db.groups
  {
    var cols := db.groups[gid];
    Group(cols.nextSeq, Under(db.creds, gid), Under(db.invites, gid), Under(db.pending, gid), cols.bytes,
          InOrder(db.stream, gid, SeqsOf(db.stream, gid)), cols.creator)
  }

  /** What loading the tables gives: one group per row, with its rows gathered and its stream in order. */
  ghost function Loaded(db: Tables, now: nat, budget: nat): Host {
    Host(now, map gid | gid in db.groups :: LoadedGroup(db, gid), db.files, budget, CLEAN)
  }

  ghost predicate Ascending(stream: seq<StreamRow>) {
    forall i, j :: 0 <= i < j < |stream| ==> stream[i].seqNo < stream[j].seqNo
  }

  ghost predicate Next(w: World, e: Event, w': World) {
    match e
    case Did(op) => Admissible(w.host, op) && w' == World(Step(w.host, op), w.db)
    case Persisted =>
      && (w.host.dirty == CLEAN || ConstraintsOk(w.db, w.host, w.host.dirty))
      && w' == if w.host.dirty == CLEAN then w
               else World(w.host.(dirty := CLEAN), Flushed(w.db, w.host, w.host.dirty))
    case PersistFailed => w' == World(w.host.(dirty := Absorb(CLEAN, w.host.dirty)), w.db)
    case Restarted => w.host.now <= w'.host.now && w' == World(Loaded(w.db, w'.host.now, w.host.budget), w.db)
  }

  /** The database is a full copy of some earlier sound memory. */
  ghost predicate WasMemory(db: Tables, last: Host, h: Host) {
    HostOk(last) && FilesHoused(last) && IsSnapshot(db, last) && last.now <= h.now && last.budget == h.budget
  }

  ghost predicate Good(w: World) {
    && HostOk(w.host) && w.host.budget < U64_MAX
    && Lag(w.db, w.host)
    && exists last :: WasMemory(w.db, last, w.host)
  }

  ghost predicate IsRun(ws: seq<World>, es: seq<Event>) {
    && |ws| == |es| + 1
    && forall i :: 0 <= i < |es| ==> Next(ws[i], es[i], ws[i + 1])
  }

  // ------------------------------------------------------------------- reload

  /** Streams in sequence order with the same rows are the same stream. */
  lemma {:induction false} SameStream(a: seq<StreamRow>, b: seq<StreamRow>)
    requires Ascending(a) && Ascending(b) && forall s :: FindRow(a, s) == FindRow(b, s)
    ensures a == b
  {
    assert a == [] ==> forall s :: FindRow(a, s).None?;
    assert b == [] ==> forall s :: FindRow(b, s).None?;
    if b != [] { assert FindRow(b, b[0].seqNo) == Some(b[0]); }
    if a != [] {
      assert FindRow(a, a[0].seqNo) == Some(a[0]);
      assert FindRow(b, a[0].seqNo) == Some(a[0]);
      assert FindRow(a, b[0].seqNo) == Some(b[0]);
      LeastFirst(a, b[0]);
      LeastFirst(b, a[0]);
      forall s ensures FindRow(a[1..], s) == FindRow(b[1..], s) {
        TailRows(a, s);
        TailRows(b, s);
      }
      SameStream(a[1..], b[1..]);
      assert a == [a[0]] + a[1..] && b == [b[0]] + b[1..];
    }
  }

  lemma LeastFirst(a: seq<StreamRow>, row: StreamRow)
    requires Ascending(a) && row in a
    ensures a[0].seqNo <= row.seqNo && (a[0].seqNo == row.seqNo ==> a[0] == row)
  {
  }

  lemma TailRows(a: seq<StreamRow>, s: nat)
    requires Ascending(a) && a != []
    ensures FindRow(a[1..], s) == if s == a[0].seqNo then None else FindRow(a, s)
  {
  }

  lemma DenseAscends(g: Group)
    requires StreamOk(g)
    ensures Ascending(g.stream)
  {
  }

  lemma {:induction false} InOrderAscends(rows: map<(Key, nat), StreamRow>, gid: Key, seqs: set<nat>)
    requires forall s :: s in seqs ==> (gid, s) in rows
    ensures Ascending(InOrder(rows, gid, seqs))
    ensures forall s :: FindRow(InOrder(rows, gid, seqs), s)
                        == if s in seqs then Some(rows[(gid, s)].(seqNo := s)) else None
    decreases |seqs|
  {
    if seqs != {} {
      var least := LeastKey(seqs);
      var rest := InOrder(rows, gid, seqs - {least});
      InOrderAscends(rows, gid, seqs - {least});
      hide Ascending, FindRow;
      forall j | 0 <= j < |rest| ensures least < rest[j].seqNo {
        HeldRow(rest, j);
        assert rest[j].seqNo in seqs - {least};
      }
      ConsAscends(rows[(gid, least)].(seqNo := least), rest);
    }
  }

  lemma HeldRow(stream: seq<StreamRow>, j: nat)
    requires j < |stream|
    ensures FindRow(stream, stream[j].seqNo).Some?
  {
  }

  lemma ConsAscends(row: StreamRow, rest: seq<StreamRow>)
    requires Ascending(rest) && forall j :: 0 <= j < |rest| ==> row.seqNo < rest[j].seqNo
    ensures Ascending([row] + rest)
    ensures forall s :: FindRow([row] + rest, s) == if s == row.seqNo then Some(row) else FindRow(rest, s)
  {
    assert ([row] + rest)[1..] == rest;
  }

  /** One group comes back as it was. */
  lemma GroupReloads(db: Tables, last: Host, gid: Key)
    requires IsSnapshot(db, last) && gid in last.groups && GroupOk(last.groups[gid])
    ensures gid in db.groups && LoadedGroup(db, gid) == last.groups[gid]
  {
    assert Get(db.groups, gid) == MemCols(last, gid);
    var g := last.groups[gid];
    forall c
      ensures Get(Under(db.creds, gid), c) == Get(g.creds, c)
      ensures Get(Under(db.invites, gid), c) == Get(g.invites, c)
      ensures Get(Under(db.pending, gid), c) == Get(g.pending, c)
    {
      assert Get(db.creds, (gid, c)) == MemCred(last, (gid, c));
      assert Get(db.invites, (gid, c)) == MemInvite(last, (gid, c));
      assert Get(db.pending, (gid, c)) == MemPending(last, (gid, c));
    }
    SameLookups(Under(db.creds, gid), g.creds);
    SameLookups(Under(db.invites, gid), g.invites);
    SameLookups(Under(db.pending, gid), g.pending);
    StreamReloads(db, last, gid);
  }

  lemma StreamReloads(db: Tables, last: Host, gid: Key)
    requires IsSnapshot(db, last) && gid in last.groups && GroupOk(last.groups[gid])
    ensures InOrder(db.stream, gid, SeqsOf(db.stream, gid)) == last.groups[gid].stream
  {
    var seqs := SeqsOf(db.stream, gid);
    var stream := InOrder(db.stream, gid, seqs);
    InOrderAscends(db.stream, gid, seqs);
    DenseAscends(last.groups[gid]);
    forall s ensures FindRow(stream, s) == FindRow(last.groups[gid].stream, s) {
      assert Get(db.stream, (gid, s)) == MemRow(last, (gid, s));
    }
    SameStream(stream, last.groups[gid].stream);
  }

  /** Loading a copy of sound memory gives back exactly that memory, and a copy of it is what was loaded. */
  lemma ReloadRestores(db: Tables, last: Host, now: nat, budget: nat)
    requires IsSnapshot(db, last) && GroupsOk(last.groups)
    ensures var h := Loaded(db, now, budget);
            h.groups == last.groups && h.files == last.files && IsSnapshot(db, h)
  {
    var h := Loaded(db, now, budget);
    hide LoadedGroup, GroupOk;
    forall gid ensures Get(h.groups, gid) == Get(last.groups, gid) {
      assert Get(db.groups, gid) == MemCols(last, gid);
      if gid in last.groups { GroupReloads(db, last, gid); }
    }
    SameLookups(h.groups, last.groups);
    SameMemory(db, last, h);
  }

  lemma SameMemory(db: Tables, a: Host, b: Host)
    requires IsSnapshot(db, a) && b.groups == a.groups && b.files == a.files
    ensures IsSnapshot(db, b)
  {
    hide FindRow;
    assert forall gid :: MemCols(b, gid) == MemCols(a, gid);
    assert forall k :: MemCred(b, k) == MemCred(a, k);
    assert forall k :: MemInvite(b, k) == MemInvite(a, k);
    assert forall k :: MemPending(b, k) == MemPending(a, k);
    assert forall k :: MemRow(b, k) == MemRow(a, k);
    hide MemCols, MemCred, MemInvite, MemPending, MemRow;
  }

  // ------------------------------------------------------------------ each event

  /** Memory with the invites the table holds. */
  function WithInvites(h: Host, rows: map<(Key, Key), Invite>): Host {
    h.(groups := map gid | gid in h.groups :: h.groups[gid].(invites := Under(rows, gid)))
  }

  lemma AgreeingWasMemory(db: Tables, h: Host)
    requires Agrees(db, h) && HostOk(h) && FilesHoused(h)
    requires forall k: (Key, Key) :: k in db.invites ==> k.0 in h.groups
    ensures WasMemory(db, WithInvites(h, db.invites), h)
  {
    hide HostOk, WithInvites, MemCols, MemCred, MemPending, MemRow, MemInvite;
    InvitesApartOk(h, db.invites);
    InvitesApartLookups(h, db.invites);
    InvitesApartFrame(h, db.invites);
    forall k ensures Get(db.invites, k) == MemInvite(WithInvites(h, db.invites), k) { InviteBack(h, db.invites, k); }
  }

  lemma InvitesApartFrame(h: Host, rows: map<(Key, Key), Invite>)
    ensures var last := WithInvites(h, rows);
            && last.files == h.files && last.now == h.now && last.budget == h.budget
            && (FilesHoused(h) ==> FilesHoused(last))
  {
    hide Under;
  }

  lemma InviteBack(h: Host, rows: map<(Key, Key), Invite>, k: (Key, Key))
    requires k in rows ==> k.0 in h.groups
    ensures Get(rows, k) == MemInvite(WithInvites(h, rows), k)
  {
    assert k == (k.0, k.1);
    assert Get(Under(rows, k.0), k.1) == Get(rows, (k.0, k.1));
    hide Under;
  }

  lemma InvitesApartOk(h: Host, rows: map<(Key, Key), Invite>)
    requires HostOk(h)
    ensures HostOk(WithInvites(h, rows))
  {
    var last := WithInvites(h, rows);
    forall gid | gid in last.groups ensures GroupOk(last.groups[gid]) { assert GroupOk(h.groups[gid]); }
    hide GroupOk, FilesOk, Under;
  }

  lemma InvitesApartLookups(h: Host, rows: map<(Key, Key), Invite>)
    ensures var last := WithInvites(h, rows);
            && (forall gid :: MemCols(last, gid) == MemCols(h, gid))
            && (forall k :: MemCred(last, k) == MemCred(h, k))
            && (forall k :: MemPending(last, k) == MemPending(h, k))
            && (forall k :: MemRow(last, k) == MemRow(h, k))
  {
    hide Under, FindRow;
  }

  lemma CleanAgrees(db: Tables, h: Host)
    requires Lag(db, h) && h.dirty == CLEAN
    ensures Agrees(db, h)
  {
    hide MemCols, MemCred, MemInvite, MemPending, MemRow;
    forall t ensures Get(db.files, t) == Get(h.files, t) {
    }
    SameLookups(db.files, h.files);
  }

  lemma InvitesHoused(db: Tables, last: Host, h: Host)
    requires WasMemory(db, last, h) && Lag(db, h)
    ensures forall k: (Key, Key) :: k in db.invites ==> k.0 in h.groups
    ensures forall k: (Key, Key) :: k in FlushInvites(db, h, h.dirty) ==> k.0 in h.groups
  {
    hide LagCreds, LagInvites, LagPending, LagStream, LagFiles, HostOk;
    forall k: (Key, Key) | k in db.invites ensures k.0 in h.groups {
      assert Get(db.invites, k) == MemInvite(last, k);
      assert Get(db.groups, k.0) == MemCols(last, k.0);
      assert if k.0 in h.dirty.groups then k.0 in h.groups else Get(db.groups, k.0) == MemCols(h, k.0);
    }
  }

  lemma PersistKeepsGood(w: World, w': World)
    requires Good(w) && Next(w, Persisted, w')
    ensures Good(w') && Agrees(w'.db, w'.host)
  {
    var h, db := w.host, w.db;
    if h.dirty == CLEAN {
      CleanAgrees(db, h);
    } else {
      var last :| WasMemory(db, last, h);
      InvitesHoused(db, last, h);
      FlushAgrees(db, h);
      DirtyFree(Flushed(db, h, h.dirty), h);
      assert FilesHoused(h);
      hide Lag, Agrees, HostOk, WasMemory;
      hide FlushGroups, FlushCreds, FlushInvites, FlushPending, FlushStream, FlushFiles;
      AgreeingWasMemory(w'.db, w'.host);
      AgreesHasNoLag(w'.db, w'.host);
    }
  }

  /** Agreement, soundness and housing do not look at the journal. */
  lemma DirtyFree(db: Tables, h: Host)
    requires HostOk(h) && Agrees(db, h) && FilesHoused(h)
    ensures var h' := h.(dirty := CLEAN); HostOk(h') && Agrees(db, h') && FilesHoused(h')
  {
    var h' := h.(dirty := CLEAN);
    assert forall k :: MemCred(h', k) == MemCred(h, k);
    assert forall k :: MemInvite(h', k) == MemInvite(h, k);
    assert forall k :: MemPending(h', k) == MemPending(h, k);
    assert forall k :: MemRow(h', k) == MemRow(h, k);
    assert forall k :: MemCols(h', k) == MemCols(h, k);
    hide MemCred, MemInvite, MemPending, MemRow, MemCols, GroupsOk, FilesOk;
  }

  lemma AbsorbIntoClean(d: GroupDirty)
    ensures Absorb(CLEAN, d) == d
  {
  }

  lemma RestartKeepsGood(w: World, w': World)
    requires Good(w) && Next(w, Restarted, w')
    ensures Good(w')
  {
    var last :| WasMemory(w.db, last, w.host);
    hide Lag;
    ReloadRestores(w.db, last, w'.host.now, w.host.budget);
    hide Loaded;
    TickSound(last, w'.host.now);
    SameHostOk(last.(now := w'.host.now), w'.host);
    assert FilesHoused(w'.host);
    SnapshotAgrees(w.db, w'.host);
    hide HostOk;
    AgreesHasNoLag(w.db, w'.host);
    assert WasMemory(w.db, last, w'.host);
  }

  lemma SameHostOk(a: Host, b: Host)
    requires HostOk(a) && b == a.(dirty := b.dirty)
    ensures HostOk(b)
  {
    hide GroupsOk, FilesOk;
  }

  lemma SnapshotAgrees(db: Tables, h: Host)
    requires IsSnapshot(db, h)
    ensures Agrees(db, h)
  {
  }

  lemma NextKeepsGood(w: World, e: Event, w': World)
    requires Good(w) && Next(w, e, w')
    ensures Good(w') && (e == Persisted ==> Agrees(w'.db, w'.host))
  {
    match e
    case Did(op) =>
      var last :| WasMemory(w.db, last, w.host);
      StepSound(w.host, op);
      StepLag(w.db, w.host, op);
      hide Lag, Step, Admissible, HostOk;
      assert w'.host.budget == w.host.budget && w.host.now <= w'.host.now;
      assert WasMemory(w.db, last, w'.host);
    case Persisted => hide Good, Agrees; PersistKeepsGood(w, w');
    case PersistFailed =>
      AbsorbIntoClean(w.host.dirty);
      assert w' == w;
    case Restarted => hide Good; RestartKeepsGood(w, w');
  }

  ghost predicate WouldSync(w: World) {
    && ConstraintsOk(w.db, w.host, w.host.dirty)
    && Agrees(Flushed(w.db, w.host, w.host.dirty), w.host)
  }

  lemma GoodWouldSync(w: World)
    requires Good(w)
    ensures WouldSync(w)
  {
    FlushFits(w.db, w.host);
    FlushAgrees(w.db, w.host);
  }

  /**
   Group journal refinement. In every run that starts in agreement, including runs where appends fail after their
   row was stored: the host stays sound; no persist is refused by a key or a reference; each committed persist
   leaves the tables a full copy of memory, except that invite rows memory dropped may linger once expired; and at
   any point an immediate persist would do so.
   */
  lemma {:induction false} GroupJournalRefinement(ws: seq<World>, es: seq<Event>)
    requires IsRun(ws, es) && Good(ws[0])
    ensures forall i :: 0 <= i < |ws| ==> Good(ws[i]) && WouldSync(ws[i])
    ensures forall i :: 0 <= i < |es| && es[i] == Persisted ==> Agrees(ws[i + 1].db, ws[i + 1].host)
  {
    hide Good, WouldSync, Next, Agrees;
    if |es| == 0 {
      GoodWouldSync(ws[0]);
    } else {
      var n := |es| - 1;
      GroupJournalRefinement(ws[..n + 1], es[..n]);
      assert ws[..n + 1][n] == ws[n];
      NextKeepsGood(ws[n], es[n], ws[n + 1]);
      GoodWouldSync(ws[n + 1]);
      forall i | 0 <= i < n + 1 ensures Good(ws[i]) && WouldSync(ws[i]) {
        assert ws[..n + 1][i] == ws[i];
      }
      forall i | 0 <= i < n && es[i] == Persisted ensures Agrees(ws[i + 1].db, ws[i + 1].host) {
        assert es[..n][i] == es[i] && ws[..n + 1][i + 1] == ws[i + 1];
      }
    }
  }

  /** An invite row that a persist now would leave in the table although memory does not hold it. */
  ghost predicate Lingers(db: Tables, h: Host, k: (Key, Key)) {
    k in FlushInvites(db, h, h.dirty) && MemInvite(h, k).None?
  }

  /** The tables a persist would leave are an exact copy of memory exactly when no invite row lingers. */
  lemma CopyUnlessLingering(db: Tables, h: Host)
    requires Lag(db, h)
    ensures IsSnapshot(Flushed(db, h, h.dirty), h) <==> forall k :: !Lingers(db, h, k)
  {
    FlushAgrees(db, h);
    hide Lag, FlushGroups, FlushCreds, FlushInvites, FlushPending, FlushStream, FlushFiles;
    hide MemCols, MemCred, MemPending, MemRow, MemInvite;
    var t := Flushed(db, h, h.dirty);
    forall k ensures Get(t.invites, k) == MemInvite(h, k) <==> !Lingers(db, h, k) {
      assert InviteAgrees(Get(t.invites, k), MemInvite(h, k), h.now);
    }
  }

  /** A row of a group that is not rewritten stays; one of a rewritten group never lingers. */
  lemma LingersWhere(db: Tables, h: Host, k: (Key, Key))
    requires Lag(db, h)
    ensures Lingers(db, h, k) <==> k.0 !in h.dirty.invites && k in db.invites && MemInvite(h, k).None?
  {
    FlushAgrees(db, h);
    hide Lag, Agrees, MemInvite;
  }

  /**
   Redeeming an invite, from any state of memory, journal and database. The redeemed row lingers exactly when the
   invite had expired and its group was not due for rewriting: an expired invite is dropped from memory and never
   journalled. Every other lingering row stays as it was, unless a valid redemption now rewrites its group; and
   nothing else differs.
   */
  lemma RedeemDriftsExactly(db: Tables, h: Host, gid: Key, nonce: Key, cid: Key, secret: Key, pid: Key)
    requires Lag(db, h) && gid in h.groups && nonce in h.groups[gid].invites
    ensures var h1 := Accept(h, gid, nonce, cid, secret, pid).0;
            var expired := h.now >= h.groups[gid].invites[nonce].expiresAt;
            && Agrees(Flushed(db, h1, h1.dirty), h1)
            && (Lingers(db, h1, (gid, nonce)) <==> expired && gid !in h.dirty.invites)
            && (forall k :: k != (gid, nonce) ==> (Lingers(db, h1, k) <==> Lingers(db, h, k) && (expired || k.0 != gid)))
            && (IsSnapshot(Flushed(db, h1, h1.dirty), h1) <==> forall k :: !Lingers(db, h1, k))
  {
    var h1 := Accept(h, gid, nonce, cid, secret, pid).0;
    hide Accept, Lag, Lingers, Agrees, IsSnapshot, Flushed;
    RedeemLags(db, h, gid, nonce, cid, secret, pid);
    FlushAgrees(db, h1);
    CopyUnlessLingering(db, h1);
    RedeemMoves(db, h, gid, nonce, cid, secret, pid);
    forall k ensures Lingers(db, h1, k) <==> k.0 !in h1.dirty.invites && k in db.invites && MemInvite(h1, k).None?
             ensures Lingers(db, h, k) <==> k.0 !in h.dirty.invites && k in db.invites && MemInvite(h, k).None?
    {
      LingersWhere(db, h, k);
      LingersWhere(db, h1, k);
    }
  }

  lemma RedeemLags(db: Tables, h: Host, gid: Key, nonce: Key, cid: Key, secret: Key, pid: Key)
    requires Lag(db, h)
    ensures Lag(db, Accept(h, gid, nonce, cid, secret, pid).0)
  {
    LagMarksHeld(db, h);
    AcceptJournaled(h, gid, nonce, cid, secret, pid);
    hide Lag, Journaled, Accept;
    JournaledLag(db, h, Accept(h, gid, nonce, cid, secret, pid).0);
  }

  lemma RedeemMoves(db: Tables, h: Host, gid: Key, nonce: Key, cid: Key, secret: Key, pid: Key)
    requires Lag(db, h) && gid in h.groups && nonce in h.groups[gid].invites
    ensures var h1 := Accept(h, gid, nonce, cid, secret, pid).0;
            && MemInvite(h1, (gid, nonce)).None?
            && (forall k :: k != (gid, nonce) ==> MemInvite(h1, k) == MemInvite(h, k))
            && h1.dirty.invites == h.dirty.invites + (if h.now >= h.groups[gid].invites[nonce].expiresAt then {} else {gid})
            && (gid !in h.dirty.invites ==> (gid, nonce) in db.invites)
  {
    hide LagGroups, LagCreds, LagPending, LagStream, LagFiles;
    var k := (gid, nonce);
    assert k.0 !in h.dirty.invites ==> InviteAgrees(Get(db.invites, k), MemInvite(h, k), h.now);
    hide LagInvites;
    forall k: (Key, Key) | k != (gid, nonce)
      ensures MemInvite(Accept(h, gid, nonce, cid, secret, pid).0, k) == MemInvite(h, k)
    {
      assert k == (k.0, k.1);
    }
  }
}
