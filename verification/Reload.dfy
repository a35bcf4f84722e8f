/**
 Loading after a restart, row by row: each table is read in the order the queries ask for, and every row is put
 where it belongs. Whatever the database holds, the result is a loaded state.
 */
module Reloading {
  import opened Basics
  import opened HomeState
  import opened HomeJournal
  import opened HomeDurability
  import GroupState
  import GroupJournal
  import GroupDurability

  // ------------------------------------------------------------------ home server

  lemma LeastRowExists(todo: set<(Key, nat)>)
    requires todo != {}
    ensures exists k :: k in todo && forall j :: j in todo ==> k.1 <= j.1
  {
    var seqs := set k | k in todo :: k.1;
    assert Member(todo).1 in seqs;
    var least := LeastKey(seqs);
    var k :| k in todo && k.1 == least;
    assert forall j :: j in todo ==> j.1 in seqs;
  }

  /** The next row in sequence order. */
  method LeastRow(todo: set<(Key, nat)>) returns (k: (Key, nat))
    requires todo != {}
    ensures k in todo && forall j :: j in todo ==> k.1 <= j.1
  {
    LeastRowExists(todo);
    k :| k in todo && forall j :: j in todo ==> k.1 <= j.1;
  }

  /** A mailbox and a directory entry per identity row, as its columns say. */
  method LoadIdentities(ids: map<Key, IdentityRow>) returns (mb: map<Key, Mailbox>, dir: map<Key, DirectoryRow>)
    ensures dir == LoadedDirectory(ids)
    ensures forall id :: Get(mb, id) == if id in ids && ids[id].nextSeq > 0
                                        then Some(Mailbox(ids[id].pk, ids[id].nextSeq, map[], map[], ids[id].bytes, ids[id].disabled))
                                        else None
  {
    mb, dir := map[], map[];
    var todo := ids.Keys;
    while todo != {}
      invariant todo <= ids.Keys
      invariant forall id :: Get(dir, id) == if id in todo then None else Get(LoadedDirectory(ids), id)
      invariant forall id :: Get(mb, id) == if id !in todo && id in ids && ids[id].nextSeq > 0
                                            then Some(Mailbox(ids[id].pk, ids[id].nextSeq, map[], map[], ids[id].bytes, ids[id].disabled))
                                            else None
      decreases todo
    {
      var id := Pick(todo);
      todo := todo - {id};
      var row := ids[id];
      if row.nextSeq > 0 { mb := mb[id := Mailbox(row.pk, row.nextSeq, map[], map[], row.bytes, row.disabled)]; }
      if row.binding.Some? {
        dir := dir[id := DirectoryRow(row.pk, row.revocationPk, row.binding.value, row.bindingSeq, row.revocation)];
      }
    }
    forall id ensures Get(dir, id) == Get(LoadedDirectory(ids), id) {
    }
    SameLookups(dir, LoadedDirectory(ids));
  }

  /** A mailbox while its rows come in: the rows read so far, and for each of their tokens the last of them. */
  ghost predicate Filling(db: Tables, done: set<(Key, nat)>, id: Key, m: Mailbox) {
    && id in db.identities
    && m.ownerPk == db.identities[id].pk && m.nextSeq == db.identities[id].nextSeq
    && m.bytes == db.identities[id].bytes && m.disabled == db.identities[id].disabled
    && (forall s :: s in m.rows <==> (id, s) in done && (id, s) in db.mail)
    && (forall s :: s in m.rows ==> m.rows[s] == LoadedRow(db.mail[(id, s)], s))
    && (forall t :: t in m.idem ==> m.idem[t] in m.rows && m.rows[m.idem[t]].inner.idem == t)
    && (forall s :: s in m.rows ==> m.rows[s].inner.idem in m.idem && s <= m.idem[m.rows[s].inner.idem])
  }

  function LoadedRow(row: MailRow, s: nat): StoredEnvelope {
    StoredEnvelope(s, row.receivedAt, row.expiresAt, row.inner)
  }

  function PutRow(m: Mailbox, row: StoredEnvelope): Mailbox {
    m.(rows := m.rows[row.seqNo := row], idem := m.idem[row.inner.idem := row.seqNo])
  }

  lemma FillOne(db: Tables, done: set<(Key, nat)>, id: Key, m: Mailbox, s: nat)
    requires Filling(db, done, id, m) && (id, s) in db.mail && (forall j :: j in done ==> j.1 <= s)
    ensures Filling(db, done + {(id, s)}, id, PutRow(m, LoadedRow(db.mail[(id, s)], s)))
  {
  }

  /** Rows in sequence order into their mailboxes; rows without one are skipped. */
  method LoadRows(db: Tables, empty: map<Key, Mailbox>) returns (mb: map<Key, Mailbox>)
    requires forall id :: id in empty ==> Filling(db, {}, id, empty[id])
    ensures mb.Keys == empty.Keys && forall id :: id in mb ==> LoadsMailbox(db, id, mb[id])
  {
    hide Filling, LoadsMailbox, PutRow, LoadedRow, InTurn;
    mb := empty;
    var todo := db.mail.Keys;
    ghost var done: set<(Key, nat)> := {};
    AllAhead(todo);
    while todo != {}
      invariant todo <= db.mail.Keys && done == db.mail.Keys - todo && mb.Keys == empty.Keys
      invariant forall id :: id in mb ==> Filling(db, done, id, mb[id])
      invariant InTurn(done, todo)
      decreases todo
    {
      var k := LeastRow(todo);
      ghost var before := mb;
      NextInTurn(done, todo, k);
      if k.0 in mb {
        assert k == (k.0, k.1);
        FillOne(db, done, k.0, mb[k.0], k.1);
        mb := mb[k.0 := PutRow(mb[k.0], LoadedRow(db.mail[k], k.1))];
      }
      forall id | id in mb ensures Filling(db, done + {k}, id, mb[id]) {
        if id != k.0 { FillOther(db, done, k, id, before[id]); }
      }
      todo, done := todo - {k}, done + {k};
    }
    assert done == db.mail.Keys;
    forall id | id in mb ensures LoadsMailbox(db, id, mb[id]) { Filled(db, id, mb[id]); }
  }

  /** Nothing still to come belongs before what was read. */
  ghost predicate InTurn(done: set<(Key, nat)>, todo: set<(Key, nat)>) {
    forall j, k :: j in done && k in todo ==> j.1 <= k.1
  }

  lemma AllAhead(todo: set<(Key, nat)>)
    ensures InTurn({}, todo)
  {
  }

  lemma NextInTurn(done: set<(Key, nat)>, todo: set<(Key, nat)>, k: (Key, nat))
    requires InTurn(done, todo) && k in todo && forall j :: j in todo ==> k.1 <= j.1
    ensures InTurn(done + {k}, todo - {k}) && forall j :: j in done ==> j.1 <= k.1
  {
  }

  lemma FillOther(db: Tables, done: set<(Key, nat)>, k: (Key, nat), id: Key, m: Mailbox)
    requires Filling(db, done, id, m) && id != k.0
    ensures Filling(db, done + {k}, id, m)
  {
  }

  lemma Filled(db: Tables, id: Key, m: Mailbox)
    requires Filling(db, db.mail.Keys, id, m)
    ensures LoadsMailbox(db, id, m)
  {
  }

  method LoadTokens(rows: map<Key, TokenCols>) returns (ts: seq<TokenRow>)
    ensures LoadsTokens(rows, ts)
  {
    ts := [];
    var todo := rows.Keys;
    while todo != {}
      invariant todo <= rows.Keys && DistinctTokens(ts)
      invariant forall t :: t in Held(ts) <==> t in rows && t !in todo
      invariant forall i :: 0 <= i < |ts| ==> ts[i].token in rows && ts[i].kind == KindOf(rows[ts[i].token])
      decreases todo
    {
      var t := Pick(todo);
      HeldPush(ts, TokenRow(t, KindOf(rows[t])));
      ts, todo := ts + [TokenRow(t, KindOf(rows[t]))], todo - {t};
    }
    assert forall t :: t in Held(ts) <==> t in rows.Keys;
  }

  lemma HeldPush(ts: seq<TokenRow>, row: TokenRow)
    ensures Held(ts + [row]) == Held(ts) + {row.token}
    ensures DistinctTokens(ts) && row.token !in Held(ts) ==> DistinctTokens(ts + [row])
  {
    var r := ts + [row];
    forall t ensures t in Held(r) <==> t in Held(ts) + {row.token} {
      if t in Held(ts) {
        var i :| 0 <= i < |ts| && ts[i].token == t;
        assert r[i] == ts[i];
      }
      assert r[|ts|] == row;
    }
  }

  method ListOut(s: set<Key>) returns (r: seq<Key>)
    ensures NoDup(r) && SetOf(r) == s
  {
    r := [];
    var todo := s;
    while todo != {}
      invariant todo <= s && NoDup(r)
      invariant forall x :: x in r <==> x in s && x !in todo
      decreases todo
    {
      var x := Pick(todo);
      r, todo := r + [x], todo - {x};
    }
    assert forall x :: x in SetOf(r) <==> x in s;
  }

  method LoadMemberships(rows: map<Key, set<Key>>) returns (mem: map<Key, seq<Key>>)
    ensures LoadsMembers(rows, mem)
  {
    mem := map[];
    var todo := rows.Keys;
    while todo != {}
      invariant todo <= rows.Keys && mem.Keys == rows.Keys - todo
      invariant forall o :: o in mem ==> NoDup(mem[o]) && SetOf(mem[o]) == rows[o]
      decreases todo
    {
      var o := Pick(todo);
      var list := ListOut(rows[o]);
      mem, todo := mem[o := list], todo - {o};
    }
  }

  /** The home server a database describes, whatever it holds. */
  method LoadHome(db: Tables, serverId: Key, now: nat, limits: Limits) returns (h: Home)
    ensures Loads(db, h) && h.serverId == serverId && h.now == now && h.limits == limits
  {
    hide Filling, LoadsMailbox, LoadsTokens, LoadsMembers, LoadedDirectory, LoadedPeers;
    var empty, dir := LoadIdentities(db.identities);
    forall id | id in empty ensures Filling(db, {}, id, empty[id]) { FillNone(db, empty, id); }
    var mb := LoadRows(db, empty);
    forall id ensures id in mb <==> id in db.identities && db.identities[id].nextSeq > 0 {
      assert id in mb <==> id in empty.Keys;
      assert Get(empty, id).Some? <==> id in empty;
    }
    var ts := LoadTokens(db.tokens);
    var mem := LoadMemberships(db.memberships);
    h := Home(serverId, now, limits, mb, dir, mem, ts, db.prekeys, db.seen, LoadedPeers(db.peers), db.outbound, CLEAN);
  }

  lemma FillNone(db: Tables, empty: map<Key, Mailbox>, id: Key)
    requires id in empty
    requires Get(empty, id) == if id in db.identities && db.identities[id].nextSeq > 0
                               then Some(Mailbox(db.identities[id].pk, db.identities[id].nextSeq, map[], map[],
                                                 db.identities[id].bytes, db.identities[id].disabled))
                               else None
    ensures Filling(db, {}, id, empty[id])
  {
  }

  // ------------------------------------------------------------------- group host

  /** The rows of a keyed table into their groups, in no particular order; rows without a group are skipped. */
  method Gather<V>(rows: map<(Key, Key), V>, gids: set<Key>) returns (r: map<Key, map<Key, V>>)
    ensures r == map gid | gid in gids :: GroupDurability.Under(rows, gid)
  {
    hide GroupDurability.Under;
    r := map gid | gid in gids :: map[];
    var todo := rows.Keys;
    while todo != {}
      invariant todo <= rows.Keys && r.Keys == gids
      invariant forall gid, n :: gid in gids ==> Get(r[gid], n) == if (gid, n) in todo then None else Get(rows, (gid, n))
      decreases todo
    {
      var k := Pick(todo);
      assert k == (k.0, k.1);
      if k.0 in r { r := r[k.0 := r[k.0][k.1 := rows[k]]]; }
      todo := todo - {k};
    }
    forall gid | gid in gids ensures r[gid] == GroupDurability.Under(rows, gid) {
      forall n ensures Get(r[gid], n) == Get(GroupDurability.Under(rows, gid), n) {
      }
      SameLookups(r[gid], GroupDurability.Under(rows, gid));
    }
  }

  /** A stream while its rows come in. */
  ghost predicate Streaming(rows: map<(Key, nat), GroupState.StreamRow>, done: set<(Key, nat)>, gid: Key, stream: seq<GroupState.StreamRow>) {
    && GroupDurability.Ascending(stream)
    && forall s: nat :: GroupJournal.FindRow(stream, s)
                   == if (gid, s) in done && (gid, s) in rows then Some(rows[(gid, s)].(seqNo := s)) else None
  }

  lemma StreamNone(rows: map<(Key, nat), GroupState.StreamRow>, gid: Key)
    ensures Streaming(rows, {}, gid, [])
  {
  }

  lemma StreamOne(rows: map<(Key, nat), GroupState.StreamRow>, done: set<(Key, nat)>, gid: Key, stream: seq<GroupState.StreamRow>, s: nat)
    requires Streaming(rows, done, gid, stream) && (gid, s) in rows && (gid, s) !in done && forall j :: j in done ==> j.1 <= s
    ensures Streaming(rows, done + {(gid, s)}, gid, stream + [rows[(gid, s)].(seqNo := s)])
  {
    var row := rows[(gid, s)].(seqNo := s);
    forall x ensures GroupJournal.FindRow(stream + [row], x)
                     == if GroupJournal.FindRow(stream, x).Some? then GroupJournal.FindRow(stream, x)
                        else if x == s then Some(row) else None {
      GroupJournal.FindRowAppend(stream, row, x);
    }
    forall i | 0 <= i < |stream| ensures stream[i].seqNo < s {
      GroupDurability.HeldRow(stream, i);
      assert (gid, stream[i].seqNo) in done;
    }
    hide GroupJournal.FindRow;
  }

  lemma StreamOther(rows: map<(Key, nat), GroupState.StreamRow>, done: set<(Key, nat)>, k: (Key, nat), gid: Key, stream: seq<GroupState.StreamRow>)
    requires Streaming(rows, done, gid, stream) && gid != k.0
    ensures Streaming(rows, done + {k}, gid, stream)
  {
    hide GroupJournal.FindRow;
  }

  lemma Streamed(rows: map<(Key, nat), GroupState.StreamRow>, gid: Key, stream: seq<GroupState.StreamRow>)
    requires Streaming(rows, rows.Keys, gid, stream)
    ensures stream == GroupDurability.InOrder(rows, gid, GroupDurability.SeqsOf(rows, gid))
  {
    var seqs := GroupDurability.SeqsOf(rows, gid);
    GroupDurability.InOrderAscends(rows, gid, seqs);
    hide GroupJournal.FindRow, GroupDurability.InOrder;
    GroupDurability.SameStream(stream, GroupDurability.InOrder(rows, gid, seqs));
  }

  /** Stream rows in sequence order into their groups. */
  method GatherStream(rows: map<(Key, nat), GroupState.StreamRow>, gids: set<Key>) returns (r: map<Key, seq<GroupState.StreamRow>>)
    ensures r.Keys == gids
    ensures forall gid :: gid in gids ==> r[gid] == GroupDurability.InOrder(rows, gid, GroupDurability.SeqsOf(rows, gid))
  {
    hide InTurn, Streaming, GroupDurability.InOrder, GroupJournal.FindRow;
    r := map gid | gid in gids :: [];
    var todo := rows.Keys;
    ghost var done: set<(Key, nat)> := {};
    AllAhead(todo);
    forall gid | gid in gids ensures Streaming(rows, done, gid, r[gid]) { StreamNone(rows, gid); }
    while todo != {}
      invariant todo <= rows.Keys && done == rows.Keys - todo && r.Keys == gids
      invariant forall gid :: gid in gids ==> Streaming(rows, done, gid, r[gid])
      invariant InTurn(done, todo)
      decreases todo
    {
      var k := LeastRow(todo);
      ghost var before := r;
      NextInTurn(done, todo, k);
      if k.0 in r {
        assert k == (k.0, k.1);
        StreamOne(rows, done, k.0, r[k.0], k.1);
        r := r[k.0 := r[k.0] + [rows[k].(seqNo := k.1)]];
      }
      forall gid | gid in gids ensures Streaming(rows, done + {k}, gid, r[gid]) {
        if gid != k.0 { StreamOther(rows, done, k, gid, before[gid]); }
      }
      todo, done := todo - {k}, done + {k};
    }
    assert done == rows.Keys;
    forall gid | gid in gids ensures r[gid] == GroupDurability.InOrder(rows, gid, GroupDurability.SeqsOf(rows, gid)) {
      Streamed(rows, gid, r[gid]);
    }
  }

  /** The group host a database describes, whatever it holds. */
  method LoadHost(db: GroupJournal.Tables, now: nat, budget: nat) returns (h: GroupState.Host)
    ensures h == GroupDurability.Loaded(db, now, budget)
  {
    hide GroupDurability.Under, GroupDurability.SeqsOf, GroupDurability.InOrder;
    var gids := db.groups.Keys;
    var creds := Gather(db.creds, gids);
    var invites := Gather(db.invites, gids);
    var pending := Gather(db.pending, gids);
    var stream := GatherStream(db.stream, gids);
    var groups := map gid | gid in gids ::
      GroupState.Group(db.groups[gid].nextSeq, creds[gid], invites[gid], pending[gid], db.groups[gid].bytes,
                       stream[gid], db.groups[gid].creator);
    h := GroupState.Host(now, groups, db.files, budget, GroupState.CLEAN);
  }
}
