/**
 Write-through persistence of both servers in one transaction: the journals are drained together, the row
 operations of both commit or none does, and on failure both journals go back.
 */
module WriteThrough {
  import opened Basics
  import HomeState
  import HomeJournal
  import HomeDurability
  import HomeServers
  import Persistence
  import opened GroupState
  import opened GroupJournal
  import GroupDurability
  import opened GroupHosts

  class GroupStore {
    var tables: Tables

    constructor (tables: Tables)
      ensures this.tables == tables
    {
      this.tables := tables;
    }
  }

  method UpsertGroups(db: Tables, h: Host, d: GroupDirty) returns (t: map<Key, GroupCols>)
    ensures t == FlushGroups(db, h, d)
  {
    t := db.groups;
    var todo := d.groups;
    while todo != {}
      invariant todo <= d.groups
      invariant forall g :: Get(t, g) == if g in d.groups && g !in todo && MemCols(h, g).Some? then MemCols(h, g) else Get(db.groups, g)
      decreases todo
    {
      var g := Pick(todo);
      if g in h.groups { t := t[g := Cols(h.groups[g])]; }
      todo := todo - {g};
    }
    forall k ensures Get(t, k) == Get(FlushGroups(db, h, d), k) {
    }
    SameLookups(t, FlushGroups(db, h, d));
  }

  ghost predicate CredsFit(h: Host, d: GroupDirty, gids: set<Key>) {
    forall k :: k in d.creds && MemCred(h, k).Some? ==> k.0 in gids
  }

  ghost predicate InvitesFit(h: Host, d: GroupDirty, gids: set<Key>) {
    forall k :: k in InviteKeys(h, d.invites) ==> k.0 in gids
  }

  ghost predicate PendingFit(h: Host, d: GroupDirty, gids: set<Key>) {
    forall k :: k in PendingKeys(h, d.pending) ==> k.0 in gids
  }

  ghost predicate FilesFit(h: Host, d: GroupDirty, gids: set<Key>) {
    forall f :: f in d.files && f in h.files ==> h.files[f].gid in gids
  }

  /** Upsert the marked credentials memory holds, each for a known group. */
  method UpsertCreds(db: Tables, h: Host, d: GroupDirty, gids: set<Key>) returns (ok: bool, t: map<(Key, Key), Cred>)
    ensures ok <==> CredsFit(h, d, gids)
    ensures ok ==> t == FlushCreds(db, h, d)
  {
    hide MemCred;
    t := db.creds;
    var todo := d.creds;
    while todo != {}
      invariant todo <= d.creds
      invariant forall k :: k in d.creds && k !in todo && MemCred(h, k).Some? ==> k.0 in gids
      invariant forall k :: Get(t, k) == if k in d.creds && k !in todo && MemCred(h, k).Some? then MemCred(h, k) else Get(db.creds, k)
      decreases todo
    {
      var k := Pick(todo);
      if MemCred(h, k).Some? {
        if k.0 !in gids { return false, t; }
        t := t[k := MemCred(h, k).value];
      }
      todo := todo - {k};
    }
    forall k ensures Get(t, k) == Get(FlushCreds(db, h, d), k) {
    }
    SameLookups(t, FlushCreds(db, h, d));
    ok := true;
  }

  /** DELETE one group's rows and insert those memory holds. */
  function WrittenInvites(t: map<(Key, Key), Invite>, h: Host, g: Key): map<(Key, Key), Invite> {
    (map k | k in t && k.0 != g :: t[k]) + (map k | k in InviteKeys(h, {g}) :: MemInvite(h, k).value)
  }

  lemma WrittenInvitesAt(t: map<(Key, Key), Invite>, h: Host, g: Key)
    ensures forall k: (Key, Key) :: Get(WrittenInvites(t, h, g), k) == if k.0 == g then MemInvite(h, k) else Get(t, k)
  {
    hide MemInvite;
  }

  function WrittenPending(t: map<(Key, Key), Pending>, h: Host, g: Key): map<(Key, Key), Pending> {
    (map k | k in t && k.0 != g :: t[k]) + (map k | k in PendingKeys(h, {g}) :: MemPending(h, k).value)
  }

  lemma WrittenPendingAt(t: map<(Key, Key), Pending>, h: Host, g: Key)
    ensures forall k: (Key, Key) :: Get(WrittenPending(t, h, g), k) == if k.0 == g then MemPending(h, k) else Get(t, k)
  {
    hide MemPending;
  }

  /** DELETE a group's invites and insert those memory holds, for every marked group; the group must be there. */
  method RewriteInvites(db: Tables, h: Host, d: GroupDirty, gids: set<Key>) returns (ok: bool, t: map<(Key, Key), Invite>)
    ensures ok <==> InvitesFit(h, d, gids)
    ensures ok ==> t == FlushInvites(db, h, d)
  {
    hide MemInvite, WrittenInvites;
    t := db.invites;
    var todo := d.invites;
    while todo != {}
      invariant todo <= d.invites
      invariant forall g :: g in d.invites && g !in todo && InviteKeys(h, {g}) != {} ==> g in gids
      invariant forall k: (Key, Key) :: Get(t, k) == if k.0 in d.invites && k.0 !in todo then MemInvite(h, k) else Get(db.invites, k)
      decreases todo
    {
      var g := Pick(todo);
      if InviteKeys(h, {g}) != {} && g !in gids {
        assert Member(InviteKeys(h, {g})) in InviteKeys(h, d.invites);
        return false, t;
      }
      WrittenInvitesAt(t, h, g);
      t, todo := WrittenInvites(t, h, g), todo - {g};
    }
    forall k: (Key, Key) ensures Get(t, k) == Get(FlushInvites(db, h, d), k) {
    }
    SameLookups(t, FlushInvites(db, h, d));
    forall k | k in InviteKeys(h, d.invites) ensures k.0 in gids { assert k in InviteKeys(h, {k.0}); }
    ok := true;
  }

  method RewritePending(db: Tables, h: Host, d: GroupDirty, gids: set<Key>) returns (ok: bool, t: map<(Key, Key), Pending>)
    ensures ok <==> PendingFit(h, d, gids)
    ensures ok ==> t == FlushPending(db, h, d)
  {
    hide MemPending, WrittenPending;
    t := db.pending;
    var todo := d.pending;
    while todo != {}
      invariant todo <= d.pending
      invariant forall g :: g in d.pending && g !in todo && PendingKeys(h, {g}) != {} ==> g in gids
      invariant forall k: (Key, Key) :: Get(t, k) == if k.0 in d.pending && k.0 !in todo then MemPending(h, k) else Get(db.pending, k)
      decreases todo
    {
      var g := Pick(todo);
      if PendingKeys(h, {g}) != {} && g !in gids {
        assert Member(PendingKeys(h, {g})) in PendingKeys(h, d.pending);
        return false, t;
      }
      WrittenPendingAt(t, h, g);
      t, todo := WrittenPending(t, h, g), todo - {g};
    }
    forall k: (Key, Key) ensures Get(t, k) == Get(FlushPending(db, h, d), k) {
    }
    SameLookups(t, FlushPending(db, h, d));
    forall k | k in PendingKeys(h, d.pending) ensures k.0 in gids { assert k in PendingKeys(h, {k.0}); }
    ok := true;
  }

  /** Resolve the journalled stream rows against live memory. */
  method ResolveRows(h: Host, new_: seq<(Key, nat)>) returns (live: seq<(Key, nat)>)
    ensures live == LiveNew(h, new_)
  {
    hide MemRow;
    live := [];
    for i := 0 to |new_|
      invariant live == LiveNew(h, new_[..i])
    {
      assert new_[..i + 1][..i] == new_[..i];
      if MemRow(h, new_[i]).Some? { live := live + [new_[i]]; }
    }
    assert new_[..|new_|] == new_;
  }

  ghost predicate StreamFits(table: map<(Key, nat), StreamRow>, gids: set<Key>, live: seq<(Key, nat)>) {
    NoDup(live) && forall k :: k in live ==> k !in table && k.0 in gids
  }

  function NewRows(h: Host, live: seq<(Key, nat)>): map<(Key, nat), StreamRow> {
    map k | k in live && MemRow(h, k).Some? :: MemRow(h, k).value
  }

  lemma StreamFitsPrefix(table: map<(Key, nat), StreamRow>, gids: set<Key>, h: Host, live: seq<(Key, nat)>, i: nat)
    requires i < |live| && MemRow(h, live[i]).Some? && StreamFits(table, gids, live[..i])
    ensures var t, k := table + NewRows(h, live[..i]), live[i];
            && (StreamFits(table, gids, live[..i + 1]) <==> k !in t && k.0 in gids)
            && t[k := MemRow(h, k).value] == table + NewRows(h, live[..i + 1])
  {
    hide MemRow;
    assert live[..i + 1] == live[..i] + [live[i]];
    Persistence.NoDupPush(live[..i], live[i]);
    hide NoDup;
  }

  lemma StreamFitsShrinks(table: map<(Key, nat), StreamRow>, gids: set<Key>, live: seq<(Key, nat)>, i: nat)
    requires i <= |live|
    ensures StreamFits(table, gids, live) ==> StreamFits(table, gids, live[..i])
  {
  }

  lemma NothingToInsert(table: map<(Key, nat), StreamRow>, gids: set<Key>, h: Host, live: seq<(Key, nat)>)
    ensures table + NewRows(h, live[..0]) == table && StreamFits(table, gids, live[..0])
  {
    hide MemRow;
  }

  /** INSERT the new stream rows, stopping at the first key or reference conflict. */
  method InsertStream(table: map<(Key, nat), StreamRow>, gids: set<Key>, h: Host, live: seq<(Key, nat)>)
    returns (ok: bool, t: map<(Key, nat), StreamRow>)
    requires forall k :: k in live ==> MemRow(h, k).Some?
    ensures ok <==> StreamFits(table, gids, live)
    ensures ok ==> t == table + NewRows(h, live)
  {
    t := table;
    hide StreamFits, NewRows, MemRow;
    NothingToInsert(table, gids, h, live);
    var i := 0;
    while i < |live|
      invariant i <= |live| && StreamFits(table, gids, live[..i]) && t == table + NewRows(h, live[..i])
    {
      var k := live[i];
      assert k in live;
      StreamFitsPrefix(table, gids, h, live, i);
      if k in t || k.0 !in gids {
        StreamFitsShrinks(table, gids, live, i + 1);
        return false, t;
      }
      t, i := t[k := MemRow(h, k).value], i + 1;
    }
    assert live[..|live|] == live;
    return true, t;
  }

  method UpsertFiles(db: Tables, h: Host, d: GroupDirty, gids: set<Key>) returns (ok: bool, t: map<Key, Slot>)
    ensures ok <==> FilesFit(h, d, gids)
    ensures ok ==> t == FlushFiles(db, h, d)
  {
    t := db.files;
    var todo := d.files;
    while todo != {}
      invariant todo <= d.files
      invariant forall f :: f in d.files && f !in todo && f in h.files ==> h.files[f].gid in gids
      invariant forall f :: Get(t, f) == if f in d.files && f !in todo && f in h.files then Some(h.files[f]) else Get(db.files, f)
      decreases todo
    {
      var f := Pick(todo);
      if f in h.files {
        if h.files[f].gid !in gids { return false, t; }
        t := t[f := h.files[f]];
      }
      todo := todo - {f};
    }
    forall k ensures Get(t, k) == Get(FlushFiles(db, h, d), k) {
    }
    SameLookups(t, FlushFiles(db, h, d));
    ok := true;
  }

  /** The group half of one transaction: row operations in order, stopping at the first conflict. */
  method PersistGroups(db: Tables, h: Host, d: GroupDirty) returns (ok: bool, tx: Tables)
    ensures ok <==> ConstraintsOk(db, h, d)
    ensures ok ==> tx == Flushed(db, h, d)
  {
    hide FlushGroups, FlushCreds, FlushInvites, FlushPending, FlushFiles, FlushStream, ConstraintsOk;
    hide CredsFit, InvitesFit, PendingFit, FilesFit, StreamFits, NewRows, LiveNew, MemRow;
    GroupConstraintsAre(db, h, d);
    var groups := UpsertGroups(db, h, d);
    var gids := groups.Keys;
    var credsFit, creds := UpsertCreds(db, h, d, gids);
    if !credsFit { return false, db; }
    var invitesFit, invites := RewriteInvites(db, h, d, gids);
    if !invitesFit { return false, db; }
    var pendingFit, pending := RewritePending(db, h, d, gids);
    if !pendingFit { return false, db; }
    var live := ResolveRows(h, d.streamNew);
    var streamFits, stream := InsertStream(db.stream, gids, h, live);
    if !streamFits { return false, db; }
    var filesFit, files := UpsertFiles(db, h, d, gids);
    if !filesFit { return false, db; }
    ok, tx := true, Tables(groups, creds, invites, pending, stream, files);
  }

  /** What the loops check is what the tables ask, and what they write is the flush. */
  lemma GroupConstraintsAre(db: Tables, h: Host, d: GroupDirty)
    ensures var gids, live := FlushGroups(db, h, d).Keys, LiveNew(h, d.streamNew);
            && (ConstraintsOk(db, h, d) <==>
                  && CredsFit(h, d, gids) && InvitesFit(h, d, gids) && PendingFit(h, d, gids)
                  && StreamFits(db.stream, gids, live) && FilesFit(h, d, gids))
            && FlushStream(db, h, d) == db.stream + NewRows(h, live)
  {
    SameNewRows(h, d);
    hide FlushGroups, NoDup, MemCred, MemRow, InviteKeys, PendingKeys, NewRows, LiveNew;
  }

  lemma SameNewRows(h: Host, d: GroupDirty)
    ensures (map k | k in LiveNew(h, d.streamNew) :: MemRow(h, k).value) == NewRows(h, LiveNew(h, d.streamNew))
  {
    hide MemRow;
  }

  /** An empty journal writes nothing and violates nothing. */
  lemma CleanGroupsNoop(db: Tables, h: Host)
    ensures Flushed(db, h, CLEAN) == db && ConstraintsOk(db, h, CLEAN)
  {
    CleanRewritesNoop(db, h);
    hide FlushInvites, FlushPending, MemCred, MemInvite, MemPending, MemRow, MemCols;
    assert LiveNew(h, []) == [];
    hide LiveNew;
  }

  lemma CleanRewritesNoop(db: Tables, h: Host)
    ensures FlushInvites(db, h, CLEAN) == db.invites && FlushPending(db, h, CLEAN) == db.pending
  {
    hide MemInvite, MemPending;
    forall k: (Key, Key)
      ensures Get(FlushInvites(db, h, CLEAN), k) == Get(db.invites, k)
      ensures Get(FlushPending(db, h, CLEAN), k) == Get(db.pending, k)
    {
    }
    hide FlushInvites, FlushPending;
    SameLookups(FlushInvites(db, h, CLEAN), db.invites);
    SameLookups(FlushPending(db, h, CLEAN), db.pending);
  }

  lemma HomeCommits(h: HomeState.Home, db: HomeJournal.Tables)
    requires HomeJournal.ConstraintsOk(db, h, h.dirty)
    ensures HomeDurability.Next(HomeDurability.World(h, db), HomeDurability.Persisted,
                                HomeDurability.World(h.(dirty := HomeState.CLEAN), HomeJournal.Flushed(db, h, h.dirty)))
  {
    HomeDurability.FlushCleanIsNoop(h, db);
    hide HomeJournal.ConstraintsOk, HomeJournal.Flushed;
  }

  lemma HostCommits(h: Host, db: Tables)
    requires ConstraintsOk(db, h, h.dirty)
    ensures GroupDurability.Next(GroupDurability.World(h, db), GroupDurability.Persisted,
                                 GroupDurability.World(h.(dirty := CLEAN), Flushed(db, h, h.dirty)))
  {
    CleanGroupsNoop(db, h);
    hide ConstraintsOk, Flushed;
  }

  lemma PersistIdleOrFails(h: HomeState.Home, db: HomeJournal.Tables, g: Host, gdb: Tables)
    ensures h.dirty == HomeState.CLEAN ==>
              HomeDurability.Next(HomeDurability.World(h, db), HomeDurability.Persisted, HomeDurability.World(h, db))
    ensures g.dirty == CLEAN ==>
              GroupDurability.Next(GroupDurability.World(g, gdb), GroupDurability.Persisted, GroupDurability.World(g, gdb))
    ensures HomeDurability.Next(HomeDurability.World(h, db), HomeDurability.PersistFailed,
                                HomeDurability.World(h.(dirty := HomeState.Absorb(HomeState.CLEAN, h.dirty)), db))
    ensures GroupDurability.Next(GroupDurability.World(g, gdb), GroupDurability.PersistFailed,
                                 GroupDurability.World(g.(dirty := Absorb(CLEAN, g.dirty)), gdb))
  {
    hide HomeJournal.ConstraintsOk, HomeJournal.Flushed, ConstraintsOk, Flushed;
  }

  /**
   One persist of both servers. Clean journals are a no-op; otherwise both journals are taken, and on any failure
   (a violated constraint in either half, or an outage) all tables stay as they were and both journals return.
   */
  method Persist(home: HomeServers.HomeServer, host: GroupHost, store: Persistence.Store, groups: GroupStore, outage: bool)
    returns (ok: bool)
    requires store.Valid()
    modifies home`dirty, host`dirty, store, groups
    ensures store.Valid()
    ensures ok <==>
            || (old(home.dirty) == HomeState.CLEAN && old(host.dirty) == CLEAN)
            || (!outage && HomeJournal.ConstraintsOk(old(store.tables), old(home.View()), old(home.dirty))
                && ConstraintsOk(old(groups.tables), old(host.View()), old(host.dirty)))
    ensures var e := if ok then HomeDurability.Persisted else HomeDurability.PersistFailed;
            HomeDurability.Next(HomeDurability.World(old(home.View()), old(store.tables)), e,
                                HomeDurability.World(home.View(), store.tables))
    ensures var e := if ok then GroupDurability.Persisted else GroupDurability.PersistFailed;
            GroupDurability.Next(GroupDurability.World(old(host.View()), old(groups.tables)), e,
                                 GroupDurability.World(host.View(), groups.tables))
  {
    hide HomeJournal.ConstraintsOk, HomeJournal.Flushed, ConstraintsOk, Flushed;
    hide HomeDurability.Next, GroupDurability.Next, HomeState.Absorb;
    PersistIdleOrFails(home.View(), store.tables, host.View(), groups.tables);
    if home.dirty == HomeState.CLEAN && host.dirty == CLEAN { return true; }
    var hd, gd := home.dirty, host.dirty;
    var homeMemory, hostMemory := home.View(), host.View();
    home.dirty, host.dirty := HomeState.CLEAN, CLEAN;
    var homeFits, homeTx := Persistence.PersistInner(store.tables, homeMemory, hd);
    var groupsFit, groupsTx := PersistGroups(groups.tables, hostMemory, gd);
    if homeFits && groupsFit && !outage {
      HomeCommits(homeMemory, store.tables);
      HostCommits(hostMemory, groups.tables);
      store.tables, groups.tables := homeTx, groupsTx;
      ok := true;
    } else {
      home.dirty := HomeState.Absorb(home.dirty, hd);
      host.dirty := Absorb(host.dirty, gd);
      ok := false;
    }
  }
}
