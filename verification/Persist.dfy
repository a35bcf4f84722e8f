/**
 The home server's half of a persist transaction: row operations table by table, in order, against the drained
 journal and live memory. The row loops are proved to compute `Flushed`.
 */
module Persistence {
  import opened Basics
  import opened HomeState
  import opened HomeRun
  import opened HomeJournal

  class Store {
    var tables: Tables

    /** The unique index the database keeps itself. */
    ghost predicate Valid()
      reads this
    {
      IdemUnique(tables.mail)
    }

    constructor (tables: Tables)
      requires IdemUnique(tables.mail)
      ensures Valid() && this.tables == tables
    {
      this.tables := tables;
    }
  }

  method UpsertIdentities(db: Tables, h: Home, d: HomeDirty) returns (t: map<Key, IdentityRow>)
    ensures t == FlushIdentities(db, h, d)
  {
    hide IdentityCols;
    t := db.identities;
    var todo := d.identities;
    while todo != {}
      invariant todo <= d.identities
      invariant forall id :: Get(t, id) == if id in d.identities && id !in todo
                                           then Some(IdentityCols(h.mailboxes, h.directory, id)) else Get(db.identities, id)
      decreases todo
    {
      var id := Pick(todo);
      t, todo := t[id := IdentityCols(h.mailboxes, h.directory, id)], todo - {id};
    }
    forall k ensures Get(t, k) == Get(FlushIdentities(db, h, d), k) {
    }
    SameLookups(t, FlushIdentities(db, h, d));
  }

  /** DELETE by owner, by exact row, then up to each owner's mark. */
  method DeleteMail(table: map<(Key, nat), MailRow>, d: HomeDirty) returns (t: map<(Key, nat), MailRow>)
    ensures t == AfterDeletes(table, d)
  {
    t := table;
    var owners := d.mailboxCleared;
    while owners != {}
      invariant owners <= d.mailboxCleared
      invariant forall k: (Key, nat) :: Get(t, k) == if k.0 in d.mailboxCleared && k.0 !in owners then None else Get(table, k)
      decreases owners
    {
      var o := Pick(owners);
      t, owners := map k | k in t && k.0 != o :: t[k], owners - {o};
    }
    t := t - d.mailboxDropped;
    var cut := t;
    var marked := d.mailboxAcked.Keys;
    while marked != {}
      invariant marked <= d.mailboxAcked.Keys
      invariant forall k: (Key, nat) :: Get(t, k) == if k.0 in d.mailboxAcked && k.0 !in marked && k.1 <= AsI64(d.mailboxAcked[k.0])
                                         then None else Get(cut, k)
      decreases marked
    {
      var o := Pick(marked);
      var upTo := AsI64(d.mailboxAcked[o]);
      t, marked := map k | k in t && !(k.0 == o && k.1 <= upTo) :: t[k], marked - {o};
    }
    forall k: (Key, nat) ensures Get(t, k) == Get(AfterDeletes(table, d), k) {
    }
    SameLookups(t, AfterDeletes(table, d));
  }

  /** Resolve the journalled rows against live memory; rows already wiped are left out. */
  method ResolveNew(mb: map<Key, Mailbox>, new_: seq<(Key, nat)>) returns (live: seq<(Key, nat)>)
    ensures live == LiveNew(mb, new_)
  {
    live := [];
    for i := 0 to |new_|
      invariant live == LiveNew(mb, new_[..i])
    {
      assert new_[..i + 1][..i] == new_[..i];
      var k := new_[i];
      if k.0 in mb && k.1 in mb[k.0].rows { live := live + [k]; }
    }
    assert new_[..|new_|] == new_;
  }

  method ResolveSeen(seen: map<Key, nat>, new_: seq<Key>) returns (live: seq<Key>)
    ensures live == LiveSeen(seen, new_)
  {
    live := [];
    for i := 0 to |new_|
      invariant live == LiveSeen(seen, new_[..i])
    {
      assert new_[..i + 1][..i] == new_[..i];
      if new_[i] in seen { live := live + [new_[i]]; }
    }
    assert new_[..|new_|] == new_;
  }

  /** A row of this owner with this idempotency token is in the table: what the unique index looks up. */
  predicate IdemTaken(t: map<(Key, nat), MailRow>, owner: Key, idem: Key) {
    exists j :: j in t && j.0 == owner && t[j].inner.idem == idem
  }

  /** The rows to insert, as memory has them. */
  function NewMail(mb: map<Key, Mailbox>, live: seq<(Key, nat)>): map<(Key, nat), MailRow> {
    map k | k in live && MemMail(mb, k).Some? :: MemMail(mb, k).value
  }

  /** Everything the mail table asks of the rows to insert. */
  ghost predicate MailFits(table: map<(Key, nat), MailRow>, ids: set<Key>, mb: map<Key, Mailbox>, live: seq<(Key, nat)>) {
    && NoDup(live)
    && (forall k :: k in live ==> k !in table)
    && IdemUnique(table + NewMail(mb, live))
    && (forall k :: k in live ==> k.0 in ids)
  }

  lemma MailFitsPrefix(table: map<(Key, nat), MailRow>, ids: set<Key>, mb: map<Key, Mailbox>, live: seq<(Key, nat)>, i: nat)
    requires i < |live| && MemMail(mb, live[i]).Some? && MailFits(table, ids, mb, live[..i])
    ensures var t, k, row := table + NewMail(mb, live[..i]), live[i], MemMail(mb, live[i]).value;
            && (MailFits(table, ids, mb, live[..i + 1])
                <==> k !in t && !IdemTaken(t, k.0, row.inner.idem) && k.0 in ids)
            && t[k := row] == table + NewMail(mb, live[..i + 1])
  {
    var t, k, row := table + NewMail(mb, live[..i]), live[i], MemMail(mb, live[i]).value;
    hide MemMail;
    assert live[..i + 1] == live[..i] + [k];
    assert t[k := row] == table + NewMail(mb, live[..i + 1]);
    assert NoDup(live[..i + 1]) <==> k !in live[..i] by { NoDupPush(live[..i], k); }
    if k !in t { IdemPush(t, k, row); }
    hide NewMail, IdemUnique, NoDup, IdemTaken;
  }

  lemma NoDupPush<T>(s: seq<T>, x: T)
    requires NoDup(s)
    ensures NoDup(s + [x]) <==> x !in s
  {
    if x in s {
      var i :| 0 <= i < |s| && s[i] == x;
      assert (s + [x])[i] == (s + [x])[|s|];
    }
  }

  lemma IdemPush(t: map<(Key, nat), MailRow>, k: (Key, nat), row: MailRow)
    requires IdemUnique(t) && k !in t
    ensures IdemUnique(t[k := row]) <==> !IdemTaken(t, k.0, row.inner.idem)
  {
    var t' := t[k := row];
    if IdemTaken(t, k.0, row.inner.idem) {
      var j :| j in t && j.0 == k.0 && t[j].inner.idem == row.inner.idem;
      assert t'[j] == t[j] && t'[k] == row && j != k;
    }
  }

  lemma MailFitsShrinks(table: map<(Key, nat), MailRow>, ids: set<Key>, mb: map<Key, Mailbox>,
                        live: seq<(Key, nat)>, i: nat)
    requires i <= |live|
    ensures MailFits(table, ids, mb, live) ==> MailFits(table, ids, mb, live[..i])
  {
    hide MemMail;
    var a, b := table + NewMail(mb, live[..i]), table + NewMail(mb, live);
    assert forall k :: k in live[..i] ==> k in live;
    if MailFits(table, ids, mb, live) {
      forall k | k in a ensures k in b && a[k] == b[k] {
      }
    }
  }

  /** INSERT row by row, stopping at the first primary key, unique index or reference conflict. */
  method InsertMail(table: map<(Key, nat), MailRow>, ids: set<Key>, mb: map<Key, Mailbox>, live: seq<(Key, nat)>)
    returns (ok: bool, t: map<(Key, nat), MailRow>)
    requires IdemUnique(table) && forall k :: k in live ==> MemMail(mb, k).Some?
    ensures ok <==> MailFits(table, ids, mb, live)
    ensures ok ==> t == table + NewMail(mb, live)
  {
    t := table;
    assert table + NewMail(mb, live[..0]) == table && MailFits(table, ids, mb, live[..0]);
    hide MailFits, IdemUnique, NewMail, MemMail, IdemTaken;
    var i := 0;
    while i < |live|
      invariant i <= |live| && t == table + NewMail(mb, live[..i]) && MailFits(table, ids, mb, live[..i])
    {
      var k := live[i];
      assert k in live;
      var row := MemMail(mb, k).value;
      MailFitsPrefix(table, ids, mb, live, i);
      if k in t || IdemTaken(t, k.0, row.inner.idem) || k.0 !in ids {
        MailFitsShrinks(table, ids, mb, live, i + 1);
        return false, t;
      }
      t, i := t[k := row], i + 1;
    }
    assert live[..|live|] == live;
    return true, t;
  }

  ghost predicate SeenFits(table: map<Key, nat>, live: seq<Key>) {
    NoDup(live) && forall e :: e in live ==> e !in table
  }

  function NewSeen(seen: map<Key, nat>, live: seq<Key>): map<Key, nat> {
    map e | e in live && e in seen :: seen[e]
  }

  lemma SeenFitsPrefix(table: map<Key, nat>, seen: map<Key, nat>, live: seq<Key>, i: nat)
    requires i < |live| && live[i] in seen && SeenFits(table, live[..i])
    ensures var t, e := table + NewSeen(seen, live[..i]), live[i];
            && (SeenFits(table, live[..i + 1]) <==> e !in t)
            && t[e := seen[e]] == table + NewSeen(seen, live[..i + 1])
  {
    assert live[..i + 1] == live[..i] + [live[i]];
    NoDupPush(live[..i], live[i]);
    hide NoDup;
  }

  /** INSERT the new keys of the replay window, stopping at the first that is there. */
  method InsertSeen(table: map<Key, nat>, seen: map<Key, nat>, live: seq<Key>) returns (ok: bool, t: map<Key, nat>)
    requires forall e :: e in live ==> e in seen
    ensures ok <==> SeenFits(table, live)
    ensures ok ==> t == table + NewSeen(seen, live)
  {
    t := table;
    assert table + NewSeen(seen, live[..0]) == table && SeenFits(table, live[..0]);
    hide SeenFits, NewSeen;
    var i := 0;
    while i < |live|
      invariant i <= |live| && SeenFits(table, live[..i]) && t == table + NewSeen(seen, live[..i])
    {
      var e := live[i];
      assert e in live;
      assert e in seen;
      SeenFitsPrefix(table, seen, live, i);
      if e in t {
        SeenFitsShrinks(table, live, i + 1);
        return false, t;
      }
      t, i := t[e := seen[e]], i + 1;
    }
    assert live[..|live|] == live;
    return true, t;
  }

  lemma SeenFitsShrinks(table: map<Key, nat>, live: seq<Key>, i: nat)
    requires i <= |live|
    ensures SeenFits(table, live) ==> SeenFits(table, live[..i])
  {
  }

  ghost predicate TokensFit(h: Home, d: HomeDirty, ids: set<Key>) {
    forall x :: x in d.tokens && MemToken(h.tokens, x).Some? ==> MemToken(h.tokens, x).value.mailbox in ids
  }

  ghost predicate PrekeysFit(h: Home, d: HomeDirty, ids: set<Key>) {
    forall o :: o in d.prekeys && Queue(h.prekeys, o).Some? ==> o in ids
  }

  ghost predicate MembersFit(h: Home, d: HomeDirty, ids: set<Key>) {
    forall o :: o in d.memberships && Members(h.memberships, o).Some? ==> o in ids
  }

  /** DELETE tokens by owner and exactly, then upsert the marked ones that memory still holds, each for a known mailbox. */
  method WriteTokens(db: Tables, h: Home, d: HomeDirty, ids: set<Key>) returns (ok: bool, t: map<Key, TokenCols>)
    ensures ok <==> TokensFit(h, d, ids)
    ensures ok ==> t == FlushTokens(db, h, d)
  {
    hide MemToken, UpsertToken;
    t := map x | x in db.tokens && db.tokens[x].mailbox !in d.tokensDropped :: db.tokens[x];
    t := t - d.tokensDroppedExact;
    var base := t;
    assert base == TokensAfterDeletes(db.tokens, d);
    var todo := d.tokens;
    while todo != {}
      invariant todo <= d.tokens
      invariant forall x :: x in d.tokens && x !in todo && MemToken(h.tokens, x).Some? ==> MemToken(h.tokens, x).value.mailbox in ids
      invariant forall x :: Get(t, x) == if x in d.tokens && x !in todo && MemToken(h.tokens, x).Some?
                                         then Some(UpsertToken(Get(base, x), MemToken(h.tokens, x).value)) else Get(base, x)
      decreases todo
    {
      var x := Pick(todo);
      var kind := MemToken(h.tokens, x);
      if kind.Some? {
        if kind.value.mailbox !in ids { return false, t; }
        t := t[x := UpsertToken(Get(t, x), kind.value)];
      }
      todo := todo - {x};
    }
    forall k ensures Get(t, k) == Get(FlushTokens(db, h, d), k) {
    }
    SameLookups(t, FlushTokens(db, h, d));
    ok := true;
  }

  /** DELETE an owner's queue and write it again, for every marked owner, each for a known identity. */
  method WritePrekeys(db: Tables, h: Home, d: HomeDirty, ids: set<Key>) returns (ok: bool, t: map<Key, seq<Blob>>)
    ensures ok <==> PrekeysFit(h, d, ids)
    ensures ok ==> t == FlushPrekeys(db, h, d)
  {
    t := db.prekeys;
    var todo := d.prekeys;
    while todo != {}
      invariant todo <= d.prekeys
      invariant forall o :: o in d.prekeys && o !in todo && Queue(h.prekeys, o).Some? ==> o in ids
      invariant forall o :: Get(t, o) == if o in d.prekeys && o !in todo then Queue(h.prekeys, o) else Get(db.prekeys, o)
      decreases todo
    {
      var o := Pick(todo);
      t, todo := t - {o}, todo - {o};
      if o in h.prekeys && h.prekeys[o] != [] {
        if o !in ids {
          assert Queue(h.prekeys, o).Some?;
          return false, t;
        }
        t := t[o := h.prekeys[o]];
      }
    }
    forall k ensures Get(t, k) == Get(FlushPrekeys(db, h, d), k) {
    }
    SameLookups(t, FlushPrekeys(db, h, d));
    ok := true;
  }

  method WriteMemberships(db: Tables, h: Home, d: HomeDirty, ids: set<Key>) returns (ok: bool, t: map<Key, set<Key>>)
    ensures ok <==> MembersFit(h, d, ids)
    ensures ok ==> t == FlushMemberships(db, h, d)
  {
    t := db.memberships;
    var todo := d.memberships;
    while todo != {}
      invariant todo <= d.memberships
      invariant forall o :: o in d.memberships && o !in todo && Members(h.memberships, o).Some? ==> o in ids
      invariant forall o :: Get(t, o) == if o in d.memberships && o !in todo then Members(h.memberships, o)
                                         else Get(db.memberships, o)
      decreases todo
    {
      var o := Pick(todo);
      t, todo := t - {o}, todo - {o};
      if o in h.memberships && h.memberships[o] != [] {
        if o !in ids {
          assert Members(h.memberships, o).Some?;
          return false, t;
        }
        t := t[o := SetOf(h.memberships[o])];
      }
    }
    forall k ensures Get(t, k) == Get(FlushMemberships(db, h, d), k) {
    }
    SameLookups(t, FlushMemberships(db, h, d));
    ok := true;
  }

  method UpsertPeers(db: Tables, h: Home, d: HomeDirty) returns (t: map<Key, PeerCols>)
    ensures t == FlushPeers(db, h, d)
  {
    t := db.peers;
    var todo := d.peers;
    while todo != {}
      invariant todo <= d.peers
      invariant forall p :: Get(t, p) == if p in d.peers && p !in todo && p in h.peers
                                         then Some(PeerRowOf(h.peers[p])) else Get(db.peers, p)
      decreases todo
    {
      var p := Pick(todo);
      if p in h.peers { t := t[p := PeerRowOf(h.peers[p])]; }
      todo := todo - {p};
    }
    forall k ensures Get(t, k) == Get(FlushPeers(db, h, d), k) {
    }
    SameLookups(t, FlushPeers(db, h, d));
  }

  /**
   The home half of one transaction: row operations in order, stopping at the first conflict. The database
   satisfies its own unique index to begin with.
   */
  method PersistInner(db: Tables, h: Home, d: HomeDirty) returns (ok: bool, tx: Tables)
    requires IdemUnique(db.mail)
    ensures ok <==> ConstraintsOk(db, h, d)
    ensures ok ==> tx == Flushed(db, h, d) && IdemUnique(tx.mail)
  {
    hide FlushIdentities, FlushTokens, FlushPrekeys, FlushMemberships, FlushPeers, FlushMail, FlushSeen, IdemUnique;
    hide ConstraintsOk, MailFits, TokensFit, PrekeysFit, MembersFit, SeenFits, LiveNew, LiveSeen, AfterDeletes, NewMail, NewSeen;
    ConstraintsAre(db, h, d);
    var identities := UpsertIdentities(db, h, d);
    var ids := identities.Keys;
    var kept := DeleteMail(db.mail, d);
    KeptUnique(db.mail, d);
    var live := ResolveNew(h.mailboxes, d.mailboxNew);
    var mailFits, mail := InsertMail(kept, ids, h.mailboxes, live);
    if !mailFits { return false, db; }
    var tokensFit, tokens := WriteTokens(db, h, d, ids);
    if !tokensFit { return false, db; }
    var prekeysFit, prekeys := WritePrekeys(db, h, d, ids);
    if !prekeysFit { return false, db; }
    var membersFit, memberships := WriteMemberships(db, h, d, ids);
    if !membersFit { return false, db; }
    var peers := UpsertPeers(db, h, d);
    var seenFits, seen := true, h.seen;
    if !d.seenCleared {
      var fresh_ := ResolveSeen(h.seen, d.seenNew);
      seenFits, seen := InsertSeen(db.seen, h.seen, fresh_);
      if !seenFits { return false, db; }
    }
    ok := true;
    tx := Tables(identities, mail, tokens, prekeys, memberships, peers, if d.outbound then h.outbound else db.outbound, seen);
  }

  /** What the loops check is what the tables ask, and what they write is the flush. */
  lemma ConstraintsAre(db: Tables, h: Home, d: HomeDirty)
    ensures var ids, mail, live := FlushIdentities(db, h, d).Keys, AfterDeletes(db.mail, d), LiveNew(h.mailboxes, d.mailboxNew);
            var fresh_ := LiveSeen(h.seen, d.seenNew);
            && (ConstraintsOk(db, h, d) <==>
                  && MailFits(mail, ids, h.mailboxes, live) && TokensFit(h, d, ids) && PrekeysFit(h, d, ids)
                  && MembersFit(h, d, ids) && (d.seenCleared || SeenFits(db.seen, fresh_)))
            && FlushMail(db, h, d) == mail + NewMail(h.mailboxes, live)
            && FlushSeen(db, h, d) == (if d.seenCleared then h.seen else db.seen + NewSeen(h.seen, fresh_))
            && (MailFits(mail, ids, h.mailboxes, live) ==> IdemUnique(FlushMail(db, h, d)))
  {
    SameNewMail(db, h, d);
    SameNewSeen(h, d);
    hide FlushIdentities, FlushMail, AfterDeletes, IdemUnique, NoDup, MemToken, Queue, Members, NewMail, NewSeen, LiveNew, LiveSeen;
  }

  lemma SameNewSeen(h: Home, d: HomeDirty)
    ensures (map e | e in LiveSeen(h.seen, d.seenNew) :: h.seen[e]) == NewSeen(h.seen, LiveSeen(h.seen, d.seenNew))
  {
  }

  lemma SameNewMail(db: Tables, h: Home, d: HomeDirty)
    ensures FlushMail(db, h, d) == AfterDeletes(db.mail, d) + NewMail(h.mailboxes, LiveNew(h.mailboxes, d.mailboxNew))
  {
    hide AfterDeletes;
  }

  lemma KeptUnique(mail: map<(Key, nat), MailRow>, d: HomeDirty)
    requires IdemUnique(mail)
    ensures IdemUnique(AfterDeletes(mail, d))
  {
  }
}
