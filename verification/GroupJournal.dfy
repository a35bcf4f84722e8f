/**
 The group host's tables, the incremental flush of its journal, and the lag between memory and database. Invite
 rows may outlive memory, but only once they have expired.
 */
module GroupJournal {
  import opened Basics
  import opened GroupState
  import opened GroupLaws

  // --------------------------------------------------------------------- tables

  datatype GroupCols = GroupCols(nextSeq: nat, bytes: nat, creator: Option<Key>)

  datatype Tables = Tables(
    groups: map<Key, GroupCols>,
    creds: map<(Key, Key), Cred>,
    invites: map<(Key, Key), Invite>,
    pending: map<(Key, Key), Pending>,
    stream: map<(Key, nat), StreamRow>,
    files: map<Key, Slot>)

  function Cols(g: Group): GroupCols {
    GroupCols(g.nextSeq, g.bytes, g.creator)
  }

  function MemCols(h: Host, gid: Key): Option<GroupCols> {
    if gid in h.groups then Some(Cols(h.groups[gid])) else None
  }

  function MemCred(h: Host, k: (Key, Key)): Option<Cred> {
    if k.0 in h.groups then Get(h.groups[k.0].creds, k.1) else None
  }

  function MemInvite(h: Host, k: (Key, Key)): Option<Invite> {
    if k.0 in h.groups then Get(h.groups[k.0].invites, k.1) else None
  }

  function MemPending(h: Host, k: (Key, Key)): Option<Pending> {
    if k.0 in h.groups then Get(h.groups[k.0].pending, k.1) else None
  }

  /** The first row with a sequence number. */
  function FindRow(stream: seq<StreamRow>, s: nat): (r: Option<StreamRow>)
    ensures r.Some? <==> exists i :: 0 <= i < |stream| && stream[i].seqNo == s
    ensures r.Some? ==> r.value in stream && r.value.seqNo == s
  {
    if stream == [] then None
    else if stream[0].seqNo == s then Some(stream[0])
    else
      assert forall i :: 1 <= i < |stream| ==> stream[i] == stream[1..][i - 1];
      FindRow(stream[1..], s)
  }

  function MemRow(h: Host, k: (Key, nat)): Option<StreamRow> {
    if k.0 in h.groups then FindRow(h.groups[k.0].stream, k.1) else None
  }

  /** A full copy of memory. */
  ghost predicate IsSnapshot(t: Tables, h: Host) {
    && (forall gid :: Get(t.groups, gid) == MemCols(h, gid))
    && (forall k :: Get(t.creds, k) == MemCred(h, k))
    && (forall k :: Get(t.invites, k) == MemInvite(h, k))
    && (forall k :: Get(t.pending, k) == MemPending(h, k))
    && (forall k :: Get(t.stream, k) == MemRow(h, k))
    && t.files == h.files
  }

  /** A full copy of memory, except that invite rows memory has dropped may linger after they expired. */
  ghost predicate Agrees(t: Tables, h: Host) {
    && (forall gid :: Get(t.groups, gid) == MemCols(h, gid))
    && (forall k :: Get(t.creds, k) == MemCred(h, k))
    && (forall k :: InviteAgrees(Get(t.invites, k), MemInvite(h, k), h.now))
    && (forall k :: Get(t.pending, k) == MemPending(h, k))
    && (forall k :: Get(t.stream, k) == MemRow(h, k))
    && t.files == h.files
  }

  predicate InviteAgrees(row: Option<Invite>, mem: Option<Invite>, now: nat) {
    row == mem || (mem.None? && row.Some? && row.value.expiresAt <= now)
  }

  // ---------------------------------------------------------------------- flush

  function InviteKeys(h: Host, gids: set<Key>): (r: set<(Key, Key)>)
    ensures forall k :: k in r <==> k.0 in gids && MemInvite(h, k).Some?
  {
    var r := set gid, n | gid in gids && gid in h.groups && n in h.groups[gid].invites :: (gid, n);
    assert forall gid, n :: gid in gids && gid in h.groups && n in h.groups[gid].invites ==> (gid, n) in r;
    assert forall k: (Key, Key) :: k.0 in gids && MemInvite(h, k).Some? ==> k == (k.0, k.1) && k in r;
    r
  }

  function PendingKeys(h: Host, gids: set<Key>): (r: set<(Key, Key)>)
    ensures forall k :: k in r <==> k.0 in gids && MemPending(h, k).Some?
  {
    var r := set gid, n | gid in gids && gid in h.groups && n in h.groups[gid].pending :: (gid, n);
    assert forall gid, n :: gid in gids && gid in h.groups && n in h.groups[gid].pending ==> (gid, n) in r;
    assert forall k: (Key, Key) :: k.0 in gids && MemPending(h, k).Some? ==> k == (k.0, k.1) && k in r;
    r
  }

  function FlushGroups(db: Tables, h: Host, d: GroupDirty): map<Key, GroupCols> {
    db.groups + (map gid | gid in d.groups && MemCols(h, gid).Some? :: MemCols(h, gid).value)
  }

  function FlushCreds(db: Tables, h: Host, d: GroupDirty): map<(Key, Key), Cred> {
    db.creds + (map k | k in d.creds && MemCred(h, k).Some? :: MemCred(h, k).value)
  }

  function FlushInvites(db: Tables, h: Host, d: GroupDirty): map<(Key, Key), Invite> {
    (map k | k in db.invites && k.0 !in d.invites :: db.invites[k])
    + (map k | k in InviteKeys(h, d.invites) :: MemInvite(h, k).value)
  }

  function FlushPending(db: Tables, h: Host, d: GroupDirty): map<(Key, Key), Pending> {
    (map k | k in db.pending && k.0 !in d.pending :: db.pending[k])
    + (map k | k in PendingKeys(h, d.pending) :: MemPending(h, k).value)
  }

  /** Journalled stream rows that memory holds, in journal order. */
  function LiveNew(h: Host, new_: seq<(Key, nat)>): (r: seq<(Key, nat)>)
    ensures forall k :: k in r <==> k in new_ && MemRow(h, k).Some?
  {
    if new_ == [] then []
    else
      var last := |new_| - 1;
      LiveNew(h, new_[..last]) + if MemRow(h, new_[last]).Some? then [new_[last]] else []
  }

  function FlushStream(db: Tables, h: Host, d: GroupDirty): map<(Key, nat), StreamRow> {
    db.stream + (map k | k in LiveNew(h, d.streamNew) :: MemRow(h, k).value)
  }

  function FlushFiles(db: Tables, h: Host, d: GroupDirty): map<Key, Slot> {
    db.files + (map t | t in d.files && t in h.files :: h.files[t])
  }

  function Flushed(db: Tables, h: Host, d: GroupDirty): Tables {
    Tables(FlushGroups(db, h, d), FlushCreds(db, h, d), FlushInvites(db, h, d), FlushPending(db, h, d),
           FlushStream(db, h, d), FlushFiles(db, h, d))
  }

  /** Plain inserts hit no existing key, and every row refers to a group that is there once groups are written. */
  predicate ConstraintsOk(db: Tables, h: Host, d: GroupDirty) {
    var groups := FlushGroups(db, h, d);
    && NoDup(LiveNew(h, d.streamNew))
    && (forall k :: k in LiveNew(h, d.streamNew) ==> k !in db.stream && k.0 in groups)
    && (forall k :: k in d.creds && MemCred(h, k).Some? ==> k.0 in groups)
    && (forall k :: k in InviteKeys(h, d.invites) ==> k.0 in groups)
    && (forall k :: k in PendingKeys(h, d.pending) ==> k.0 in groups)
    && (forall t :: t in d.files && t in h.files ==> h.files[t].gid in groups)
  }

  // ------------------------------------------------------------------------ lag

  ghost predicate LagGroups(db: Tables, h: Host) {
    forall gid :: if gid in h.dirty.groups then gid in h.groups else Get(db.groups, gid) == MemCols(h, gid)
  }

  ghost predicate LagCreds(db: Tables, h: Host) {
    forall k :: if k in h.dirty.creds then k in db.creds ==> MemCred(h, k).Some? else Get(db.creds, k) == MemCred(h, k)
  }

  ghost predicate LagInvites(db: Tables, h: Host) {
    forall k: (Key, Key) :: k.0 !in h.dirty.invites ==> InviteAgrees(Get(db.invites, k), MemInvite(h, k), h.now)
  }

  ghost predicate LagPending(db: Tables, h: Host) {
    forall k: (Key, Key) :: k.0 !in h.dirty.pending ==> Get(db.pending, k) == MemPending(h, k)
  }

  ghost predicate LagStream(db: Tables, h: Host) {
    && NoDup(h.dirty.streamNew)
    && forall k :: if k in h.dirty.streamNew then k !in db.stream && MemRow(h, k).Some? else Get(db.stream, k) == MemRow(h, k)
  }

  ghost predicate LagFiles(db: Tables, h: Host) {
    forall t :: if t in h.dirty.files then t in h.files else Get(db.files, t) == Get(h.files, t)
  }

  /** Every slot belongs to a group of this host. */
  ghost predicate FilesHoused(h: Host) {
    forall t :: t in h.files ==> h.files[t].gid in h.groups
  }

  ghost predicate Lag(db: Tables, h: Host) {
    && LagGroups(db, h) && LagCreds(db, h) && LagInvites(db, h) && LagPending(db, h)
    && LagStream(db, h) && LagFiles(db, h) && FilesHoused(h)
  }

  // -------------------------------------------------------------- flush is snapshot

  lemma {:induction false} LiveNewAll(h: Host, new_: seq<(Key, nat)>)
    requires forall k :: k in new_ ==> MemRow(h, k).Some?
    ensures LiveNew(h, new_) == new_
  {
    hide MemRow;
    if new_ != [] {
      var last := |new_| - 1;
      assert new_[last] in new_;
      assert new_ == new_[..last] + [new_[last]];
      LiveNewAll(h, new_[..last]);
    }
  }

  lemma GroupsReferable(db: Tables, h: Host, gid: Key)
    requires LagGroups(db, h) && gid in h.groups
    ensures gid in FlushGroups(db, h, h.dirty)
  {
    assert gid in h.dirty.groups || Get(db.groups, gid) == MemCols(h, gid);
  }

  lemma FlushFits(db: Tables, h: Host)
    requires Lag(db, h)
    ensures ConstraintsOk(db, h, h.dirty)
  {
    hide FlushGroups, LagGroups, LagCreds, LagInvites, LagPending, LagStream, NoDup, LiveNew, FindRow, InviteKeys, PendingKeys;
    NewRowsFit(db, h);
    forall gid | gid in h.groups ensures gid in FlushGroups(db, h, h.dirty) { GroupsReferable(db, h, gid); }
    OwnersKnown(db, h);
  }

  lemma NewRowsFit(db: Tables, h: Host)
    requires Lag(db, h)
    ensures NoDup(LiveNew(h, h.dirty.streamNew)) && forall k :: k in LiveNew(h, h.dirty.streamNew) ==> k !in db.stream
  {
    LiveNewAll(h, h.dirty.streamNew);
  }

  /** Whatever is to be written belongs to a group that memory holds. */
  lemma OwnersKnown(db: Tables, h: Host)
    requires Lag(db, h)
    ensures forall k :: k in LiveNew(h, h.dirty.streamNew) ==> k.0 in h.groups
    ensures forall k :: k in h.dirty.creds && MemCred(h, k).Some? ==> k.0 in h.groups
    ensures forall k :: k in InviteKeys(h, h.dirty.invites) ==> k.0 in h.groups
    ensures forall k :: k in PendingKeys(h, h.dirty.pending) ==> k.0 in h.groups
    ensures forall t :: t in h.dirty.files && t in h.files ==> h.files[t].gid in h.groups
  {
    hide FlushGroups, LagGroups, LagCreds, LagInvites, LagPending, LagStream, NoDup, FindRow;
  }

  /** The incremental flush agrees with a full copy of memory. */
  lemma FlushAgrees(db: Tables, h: Host)
    requires Lag(db, h)
    ensures Agrees(Flushed(db, h, h.dirty), h)
    ensures forall k: (Key, Key) :: k.0 in h.dirty.invites ==> Get(FlushInvites(db, h, h.dirty), k) == MemInvite(h, k)
  {
    FlushKeyed(db, h);
    FlushRewrites(db, h);
    FlushStreamAgrees(db, h);
    FlushFilesAgree(db, h);
    hide FlushGroups, FlushCreds, FlushInvites, FlushPending, FlushStream, FlushFiles;
  }

  lemma FlushKeyed(db: Tables, h: Host)
    requires LagGroups(db, h) && LagCreds(db, h)
    ensures forall gid :: Get(FlushGroups(db, h, h.dirty), gid) == MemCols(h, gid)
    ensures forall k :: Get(FlushCreds(db, h, h.dirty), k) == MemCred(h, k)
  {
  }

  lemma FlushRewrites(db: Tables, h: Host)
    requires LagInvites(db, h) && LagPending(db, h)
    ensures forall k :: InviteAgrees(Get(FlushInvites(db, h, h.dirty), k), MemInvite(h, k), h.now)
    ensures forall k: (Key, Key) :: k.0 in h.dirty.invites ==> Get(FlushInvites(db, h, h.dirty), k) == MemInvite(h, k)
    ensures forall k :: Get(FlushPending(db, h, h.dirty), k) == MemPending(h, k)
  {
    hide MemInvite, MemPending;
  }

  lemma FlushStreamAgrees(db: Tables, h: Host)
    requires LagStream(db, h)
    ensures forall k :: Get(FlushStream(db, h, h.dirty), k) == MemRow(h, k)
  {
    LiveNewAll(h, h.dirty.streamNew);
    hide MemRow;
  }

  lemma FlushFilesAgree(db: Tables, h: Host)
    requires LagFiles(db, h)
    ensures FlushFiles(db, h, h.dirty) == h.files
  {
    forall t ensures Get(FlushFiles(db, h, h.dirty), t) == Get(h.files, t) {
      assert t in h.dirty.files || Get(db.files, t) == Get(h.files, t);
    }
    SameLookups(FlushFiles(db, h, h.dirty), h.files);
  }

  lemma AgreesHasNoLag(db: Tables, h: Host)
    requires Agrees(db, h) && FilesHoused(h) && h.dirty == CLEAN
    ensures Lag(db, h)
  {
    hide MemCols, MemCred, MemInvite, MemPending, MemRow;
  }

  // ------------------------------------------------------------ what operations mark

  predicate MarksGrow(d: GroupDirty, d': GroupDirty) {
    && d.groups <= d'.groups && d.creds <= d'.creds && d.invites <= d'.invites && d.pending <= d'.pending
    && d.files <= d'.files
  }

  /** Counters change only in marked groups; credentials only where marked, and are never forgotten. */
  ghost predicate JournaledKeyed(h: Host, h': Host) {
    && (forall gid :: gid in h.dirty.groups ==> gid in h'.groups)
    && (forall gid :: if gid in h'.dirty.groups then gid in h'.groups else MemCols(h', gid) == MemCols(h, gid))
    && (forall k :: MemCred(h, k).Some? ==> MemCred(h', k).Some?)
    && (forall k :: k !in h'.dirty.creds ==> MemCred(h', k) == MemCred(h, k))
  }

  /** Invites and pending joins change only in marked groups, but an expired invite may go unmarked. */
  ghost predicate JournaledSets(h: Host, h': Host) {
    && (forall k: (Key, Key) :: k.0 !in h'.dirty.invites ==>
          || MemInvite(h', k) == MemInvite(h, k)
          || (MemInvite(h', k).None? && MemInvite(h, k).value.expiresAt <= h'.now))
    && (forall k: (Key, Key) :: k.0 !in h'.dirty.pending ==> MemPending(h', k) == MemPending(h, k))
  }

  /** At most one stream row appears, and is listed. */
  ghost predicate JournaledStream(h: Host, h': Host) {
    || (h'.dirty.streamNew == h.dirty.streamNew && forall k :: MemRow(h', k) == MemRow(h, k))
    || exists k :: h'.dirty.streamNew == h.dirty.streamNew + [k] && NewRow(h, h', k)
  }

  ghost predicate NewRow(h: Host, h': Host, k: (Key, nat)) {
    MemRow(h, k).None? && MemRow(h', k).Some? && forall j :: j != k ==> MemRow(h', j) == MemRow(h, j)
  }

  ghost predicate JournaledFiles(h: Host, h': Host) {
    && (forall t :: if t in h'.dirty.files then t in h'.files else Get(h'.files, t) == Get(h.files, t))
    && (forall t :: t in h'.files ==> h'.files[t].gid in h'.groups)
  }

  ghost predicate Journaled(h: Host, h': Host) {
    && h.now <= h'.now && MarksGrow(h.dirty, h'.dirty)
    && JournaledKeyed(h, h') && JournaledSets(h, h') && JournaledStream(h, h') && JournaledFiles(h, h')
  }

  lemma KeyedLag(db: Tables, h: Host, h': Host)
    requires LagGroups(db, h) && LagCreds(db, h) && MarksGrow(h.dirty, h'.dirty) && JournaledKeyed(h, h')
    ensures LagGroups(db, h') && LagCreds(db, h')
  {
    hide MemCols, MemCred;
  }

  lemma SetsLag(db: Tables, h: Host, h': Host)
    requires LagInvites(db, h) && LagPending(db, h) && h.now <= h'.now && MarksGrow(h.dirty, h'.dirty) && JournaledSets(h, h')
    ensures LagInvites(db, h') && LagPending(db, h')
  {
    hide MemInvite, MemPending;
  }

  lemma RowsLag(db: Tables, h: Host, h': Host)
    requires LagStream(db, h) && JournaledStream(h, h')
    ensures LagStream(db, h')
  {
    hide MemRow;
    if h'.dirty.streamNew != h.dirty.streamNew {
      var k :| h'.dirty.streamNew == h.dirty.streamNew + [k] && NewRow(h, h', k);
      assert k !in h.dirty.streamNew;
    }
  }

  lemma FilesLag(db: Tables, h: Host, h': Host)
    requires LagFiles(db, h) && MarksGrow(h.dirty, h'.dirty) && JournaledFiles(h, h')
    ensures LagFiles(db, h') && FilesHoused(h')
  {
  }

  lemma JournaledLag(db: Tables, h: Host, h': Host)
    requires Lag(db, h) && Journaled(h, h')
    ensures Lag(db, h')
  {
    KeyedLag(db, h, h');
    SetsLag(db, h, h');
    RowsLag(db, h, h');
    FilesLag(db, h, h');
    hide LagGroups, LagCreds, LagInvites, LagPending, LagStream, LagFiles, FilesHoused;
  }

  // --------------------------------------------------------------- each operation

  lemma {:induction false} FindRowAppend(stream: seq<StreamRow>, row: StreamRow, s: nat)
    ensures FindRow(stream + [row], s)
            == if FindRow(stream, s).Some? then FindRow(stream, s) else if row.seqNo == s then Some(row) else None
  {
    if stream == [] {
      assert [] + [row] == [row] && [row][1..] == [];
    } else {
      assert (stream + [row])[1..] == stream[1..] + [row];
      FindRowAppend(stream[1..], row, s);
    }
  }

  /** The group part of a step that lists what it changes. */
  ghost predicate GroupListed(gid: Key, g: Group, g': Group, d: GroupDirty, now: nat) {
    && (gid in d.groups || Cols(g') == Cols(g))
    && g.creds.Keys <= g'.creds.Keys
    && (forall c :: (gid, c) !in d.creds ==> Get(g'.creds, c) == Get(g.creds, c))
    && (gid in d.invites || InvitesLapse(g.invites, g'.invites, now))
    && (gid in d.pending || g'.pending == g.pending)
  }

  ghost predicate InvitesLapse(a: map<Key, Invite>, b: map<Key, Invite>, now: nat) {
    forall n :: Get(b, n) == Get(a, n) || (n !in b && n in a && a[n].expiresAt <= now)
  }

  /** The stream part: untouched, or one row with a new number, listed. */
  ghost predicate StreamListed(gid: Key, g: Group, g': Group, d: GroupDirty, d': GroupDirty) {
    || (g'.stream == g.stream && d'.streamNew == d.streamNew)
    || (|g'.stream| > 0
        && var row := g'.stream[|g'.stream| - 1];
           g'.stream == g.stream + [row] && d'.streamNew == d.streamNew + [(gid, row.seqNo)]
           && FindRow(g.stream, row.seqNo).None?)
  }

  lemma PutJournaled(h: Host, gid: Key, g': Group, d': GroupDirty)
    requires gid in h.groups && MarksGrow(h.dirty, d') && d'.groups <= h.groups.Keys && d'.files == h.dirty.files
    requires GroupListed(gid, h.groups[gid], g', d', h.now) && StreamListed(gid, h.groups[gid], g', h.dirty, d')
    requires FilesHoused(h) && forall t :: t in h.dirty.files ==> t in h.files
    ensures Journaled(h, PutGroup(h, gid, g', d'))
  {
    PutKeyed(h, gid, g', d');
    PutSets(h, gid, g', d');
    PutStream(h, gid, g', d');
    hide JournaledKeyed, JournaledSets, JournaledStream, GroupListed, StreamListed;
  }

  lemma PutKeyed(h: Host, gid: Key, g': Group, d': GroupDirty)
    requires gid in h.groups && MarksGrow(h.dirty, d') && d'.groups <= h.groups.Keys
    requires GroupListed(gid, h.groups[gid], g', d', h.now)
    ensures JournaledKeyed(h, PutGroup(h, gid, g', d'))
  {
    hide InvitesLapse;
    var h' := PutGroup(h, gid, g', d');
    forall k | k !in d'.creds ensures MemCred(h', k) == MemCred(h, k) {
      assert k == (k.0, k.1);
      assert k.0 == gid ==> Get(g'.creds, k.1) == Get(h.groups[gid].creds, k.1);
    }
    forall x ensures if x in d'.groups then x in h'.groups else MemCols(h', x) == MemCols(h, x) {
      assert x in d'.groups ==> x in h.groups.Keys;
    }
    forall x | x in h.dirty.groups ensures x in h'.groups {
      assert x in d'.groups;
    }
    forall k | MemCred(h, k).Some? ensures MemCred(h', k).Some? {
      assert k.0 == gid ==> k.1 in h.groups[gid].creds.Keys;
    }
  }

  lemma PutSets(h: Host, gid: Key, g': Group, d': GroupDirty)
    requires gid in h.groups && GroupListed(gid, h.groups[gid], g', d', h.now)
    ensures JournaledSets(h, PutGroup(h, gid, g', d'))
  {
    var h' := PutGroup(h, gid, g', d');
    var g := h.groups[gid];
    forall k: (Key, Key) | k.0 !in h'.dirty.invites
      ensures MemInvite(h', k) == MemInvite(h, k) || (MemInvite(h', k).None? && MemInvite(h, k).value.expiresAt <= h'.now)
    {
      if k.0 == gid { assert Get(g'.invites, k.1) == Get(g.invites, k.1) || k.1 in g.invites; }
    }
  }

  lemma PutStream(h: Host, gid: Key, g': Group, d': GroupDirty)
    requires gid in h.groups && StreamListed(gid, h.groups[gid], g', h.dirty, d')
    ensures JournaledStream(h, PutGroup(h, gid, g', d'))
  {
    var h' := PutGroup(h, gid, g', d');
    var g := h.groups[gid];
    hide FindRow;
    if g'.stream != g.stream {
      var row := g'.stream[|g'.stream| - 1];
      var k := (gid, row.seqNo);
      forall s ensures FindRow(g'.stream, s)
                       == if FindRow(g.stream, s).Some? then FindRow(g.stream, s)
                          else if row.seqNo == s then Some(row) else None {
        FindRowAppend(g.stream, row, s);
      }
      assert MemRow(h, k).None? && MemRow(h', k).Some?;
      forall j | j != k ensures MemRow(h', j) == MemRow(h, j) {
        assert j.0 == gid ==> j.1 != row.seqNo;
      }
      assert NewRow(h, h', k);
    }
  }

  /** What the journal needs of memory before a step: all its file and group marks name something held. */
  ghost predicate MarksHeld(h: Host) {
    && FilesHoused(h)
    && h.dirty.groups <= h.groups.Keys
    && (forall t :: t in h.dirty.files ==> t in h.files)
  }

  lemma LagMarksHeld(db: Tables, h: Host)
    requires Lag(db, h)
    ensures MarksHeld(h)
  {
    hide LagCreds, LagInvites, LagPending, LagStream;
    forall gid | gid in h.dirty.groups ensures gid in h.groups {
      assert if gid in h.dirty.groups then gid in h.groups else Get(db.groups, gid) == MemCols(h, gid);
    }
  }

  lemma StayJournaled(h: Host, time: nat)
    requires MarksHeld(h) && h.now <= time
    ensures Journaled(h, h.(now := time))
  {
    hide FindRow;
  }

  lemma CreateJournaled(h: Host, gid: Key, cid: Key, secret: Key, pk: Key, fanout: Fanout, creator: Option<Key>)
    requires MarksHeld(h) && gid !in h.groups
    ensures Journaled(h, Create(h, gid, cid, secret, pk, fanout, creator).0)
  {
    StayJournaled(h, h.now);
    assert h.(now := h.now) == h;
    var (h', r) := Create(h, gid, cid, secret, pk, fanout, creator);
    if r.Ok? {
      assert JournaledKeyed(h, h');
      assert JournaledSets(h, h');
      forall k ensures MemRow(h', k) == MemRow(h, k) {
      }
    }
  }

  lemma StoreInviteJournaled(h: Host, gid: Key, m: MemberCred, inv: InviteObject)
    requires MarksHeld(h)
    ensures Journaled(h, StoreInvite(h, gid, m, inv).0)
  {
    StayJournaled(h, h.now);
    assert h.(now := h.now) == h;
    hide Journaled;
    var (h', r) := StoreInvite(h, gid, m, inv);
    if r.Ok? { PutJournaled(h, gid, h'.groups[gid], h'.dirty); }
  }

  lemma AcceptJournaled(h: Host, gid: Key, nonce: Key, cid: Key, secret: Key, pid: Key)
    requires MarksHeld(h)
    ensures Journaled(h, Accept(h, gid, nonce, cid, secret, pid).0)
  {
    StayJournaled(h, h.now);
    assert h.(now := h.now) == h;
    hide Journaled;
    var (h', r) := Accept(h, gid, nonce, cid, secret, pid);
    if gid in h.groups && nonce in h.groups[gid].invites {
      PutJournaled(h, gid, h'.groups[gid], h'.dirty);
      assert h' == PutGroup(h, gid, h'.groups[gid], h'.dirty);
    }
  }

  lemma AdmitJournaled(h: Host, gid: Key, m: MemberCred, admit: AdmitObject, pk: Key, fanout: Fanout)
    requires MarksHeld(h)
    ensures Journaled(h, Admit(h, gid, m, admit, pk, fanout).0)
  {
    StayJournaled(h, h.now);
    assert h.(now := h.now) == h;
    hide Journaled, UnexpiredInvites, UnexpiredPending;
    var (h', r) := Admit(h, gid, m, admit, pk, fanout);
    if h' != h { PutJournaled(h, gid, h'.groups[gid], h'.dirty); }
  }

  lemma SetCredJournaled(h: Host, gid: Key, cid: Key, c: Cred)
    requires MarksHeld(h) && gid in h.groups
    ensures Journaled(h, SetCred(h, gid, cid, c).(dirty := MarkCred(h.dirty, gid, cid)))
  {
    hide Journaled;
    var g' := h.groups[gid].(creds := h.groups[gid].creds[cid := c]);
    PutJournaled(h, gid, g', MarkCred(h.dirty, gid, cid));
    assert SetCred(h, gid, cid, c).(dirty := MarkCred(h.dirty, gid, cid)) == PutGroup(h, gid, g', MarkCred(h.dirty, gid, cid));
  }

  /** A mark for a credential that is not there costs nothing. */
  lemma MarkJournaled(h: Host, gid: Key, cid: Key)
    requires MarksHeld(h)
    ensures Journaled(h, h.(dirty := MarkCred(h.dirty, gid, cid)))
  {
    hide FindRow;
  }

  lemma FanoutJournaled(h: Host, gid: Key, kind: Kind, body: Body, bad: set<Key>)
    requires MarksHeld(h) && GroupsOk(h.groups)
    ensures Journaled(h, FanoutCopy(h, gid, kind, body, bad).0)
  {
    StayJournaled(h, h.now);
    assert h.(now := h.now) == h;
    hide Journaled, Targets, Unsealable;
    var h' := FanoutCopy(h, gid, kind, body, bad).0;
    if h' != h {
      assert GroupOk(h.groups[gid]);
      hide GroupsOk;
      PutJournaled(h, gid, h'.groups[gid], h'.dirty);
    }
  }

  lemma ReserveSlotJournaled(h: Host, token: Key, slot: Slot)
    requires MarksHeld(h) && slot.gid in h.groups
    ensures Journaled(h, h.(files := h.files[token := slot], dirty := h.dirty.(files := h.dirty.files + {token})))
  {
    hide FindRow;
  }

  lemma StepLag(db: Tables, h: Host, op: Op)
    requires Lag(db, h) && HostOk(h) && Admissible(h, op)
    ensures Lag(db, Step(h, op))
  {
    LagMarksHeld(db, h);
    match op
    case OpTick(time) =>
      StayJournaled(h, time);
      hide Journaled, Lag;
      JournaledLag(db, h, Step(h, op));
    case OpCreate(gid, cid, secret, pk, fanout, creator) =>
      CreateJournaled(h, gid, cid, secret, pk, fanout, creator);
      hide Journaled, Lag, Create;
      JournaledLag(db, h, Step(h, op));
    case OpStoreInvite(gid, m, inv) =>
      StoreInviteJournaled(h, gid, m, inv);
      hide Journaled, Lag, StoreInvite;
      JournaledLag(db, h, Step(h, op));
    case OpAccept(gid, nonce, cid, secret, pid) =>
      AcceptJournaled(h, gid, nonce, cid, secret, pid);
      hide Journaled, Lag, Accept;
      JournaledLag(db, h, Step(h, op));
    case OpAdmit(gid, m, admit, pk, fanout) =>
      AdmitJournaled(h, gid, m, admit, pk, fanout);
      hide Journaled, Lag, Admit;
      JournaledLag(db, h, Step(h, op));
    case OpRefreshFanout(gid, m, fanout) => RefreshLag(db, h, gid, m, fanout); hide *;
    case OpHostRevocation(gid, body, bad) => FanoutLag(db, h, gid, Revocation, body, bad); hide FanoutCopy, Lag;
    case OpAppend(gid, m, kind, body, parsed, bad) => AppendLag(db, h, gid, m, kind, body, parsed, bad); hide Append, Lag;
    case OpUpload(gid, m, token, body) => UploadLag(db, h, gid, m, token, body); hide Upload, Lag;
  }

  lemma RefreshLag(db: Tables, h: Host, gid: Key, m: MemberCred, fanout: Fanout)
    requires Lag(db, h)
    ensures Lag(db, RefreshFanout(h, gid, m, fanout).0)
  {
    LagMarksHeld(db, h);
    hide Lag, Journaled;
    if Authorized(h, gid, m) {
      SetCredJournaled(h, gid, m.cid, h.groups[gid].creds[m.cid].(fanout := Some(fanout)));
      JournaledLag(db, h, RefreshFanout(h, gid, m, fanout).0);
    }
  }

  lemma FanoutLag(db: Tables, h: Host, gid: Key, kind: Kind, body: Body, bad: set<Key>)
    requires Lag(db, h) && GroupsOk(h.groups)
    ensures Lag(db, FanoutCopy(h, gid, kind, body, bad).0)
  {
    LagMarksHeld(db, h);
    FanoutJournaled(h, gid, kind, body, bad);
    hide Lag, Journaled, FanoutCopy;
    JournaledLag(db, h, FanoutCopy(h, gid, kind, body, bad).0);
  }

  lemma RemoveLag(db: Tables, h: Host, gid: Key, m: MemberCred, body: Body, parsed: Parsed, bad: set<Key>)
    requires Lag(db, h) && GroupsOk(h.groups)
    ensures Lag(db, AppendRemove(h, gid, m, body, parsed, bad).0)
  {
    hide Journaled, FanoutCopy, Lag;
    FanoutLag(db, h, gid, RemoveBundle, body, bad);
    var (h1, r) := FanoutCopy(h, gid, RemoveBundle, body, bad);
    LagMarksHeld(db, h1);
    if parsed.RemoveMsg? {
      MarkJournaled(h1, gid, parsed.named);
      JournaledLag(db, h1, h1.(dirty := MarkCred(h1.dirty, gid, parsed.named)));
      if gid in h1.groups && parsed.named in h1.groups[gid].creds {
        var c := h1.groups[gid].creds[parsed.named].(live := false, fanout := None);
        SetCredJournaled(h1, gid, parsed.named, c);
        JournaledLag(db, h1, SetCred(h1, gid, parsed.named, c).(dirty := MarkCred(h1.dirty, gid, parsed.named)));
      }
    }
  }

  lemma ReplaceLag(db: Tables, h: Host, gid: Key, m: MemberCred, body: Body, parsed: Parsed, bad: set<Key>)
    requires Lag(db, h) && HostOk(h) && Authorized(h, gid, m)
    ensures Lag(db, AppendReplace(h, gid, m, body, parsed, bad).0)
  {
    hide Journaled, FanoutCopy, Lag;
    LagMarksHeld(db, h);
    if parsed.ReplaceMsg? && SignedBy(h, gid, m.cid, parsed.signedBy) {
      var c := h.groups[gid].creds[m.cid].(signingPk := Some(parsed.newKey));
      var h1 := SetCred(h, gid, m.cid, c).(dirty := MarkCred(h.dirty, gid, m.cid));
      assert GroupOk(h.groups[gid]);
      SetCredSound(h, gid, m.cid, c, MarkCred(h.dirty, gid, m.cid));
      SetCredJournaled(h, gid, m.cid, c);
      hide HostMoves;
      JournaledLag(db, h, h1);
      FanoutLag(db, h1, gid, SigningReplace, body, bad);
    }
  }

  lemma ReserveLag(db: Tables, h: Host, gid: Key, m: MemberCred, body: Body, parsed: Parsed, bad: set<Key>)
    requires Lag(db, h) && GroupsOk(h.groups)
    ensures Lag(db, AppendReserve(h, gid, m, body, parsed, bad).0)
  {
    FanoutLag(db, h, gid, Reserve, body, bad);
    var (h1, r) := FanoutCopy(h, gid, Reserve, body, bad);
    assert r.Ok? ==> gid in h1.groups;
    hide Journaled, FanoutCopy, Lag, LiveBytes;
    LagMarksHeld(db, h1);
    var h' := AppendReserve(h, gid, m, body, parsed, bad).0;
    if h' != h && h' != h1 {
      ReserveSlotJournaled(h1, parsed.token, h'.files[parsed.token]);
      JournaledLag(db, h1, h');
    }
  }

  lemma AppendLag(db: Tables, h: Host, gid: Key, m: MemberCred, kind: Kind, body: Body, parsed: Parsed, bad: set<Key>)
    requires Lag(db, h) && HostOk(h)
    ensures Lag(db, Append(h, gid, m, kind, body, parsed, bad).0)
  {
    if Authorized(h, gid, m) {
      RemoveLag(db, h, gid, m, body, parsed, bad);
      ReplaceLag(db, h, gid, m, body, parsed, bad);
      ReserveLag(db, h, gid, m, body, parsed, bad);
      FanoutLag(db, h, gid, kind, body, bad);
    }
    hide Lag, AppendRemove, AppendReplace, AppendReserve, FanoutCopy;
  }

  lemma UploadLag(db: Tables, h: Host, gid: Key, m: MemberCred, token: Key, body: Body)
    requires Lag(db, h)
    ensures Lag(db, Upload(h, gid, m, token, body).0)
  {
    LagMarksHeld(db, h);
    hide Lag, Journaled;
    var h' := Upload(h, gid, m, token, body).0;
    if h' != h {
      ReserveSlotJournaled(h, token, h'.files[token]);
      JournaledLag(db, h, h');
    }
  }
}
