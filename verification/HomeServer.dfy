/**
 The home server object. Each method updates the fields step by step, as the server does, and is proved to
 move the whole state exactly as the corresponding transition of `HomeState`.
 */
module HomeServers {
  import opened Basics
  import opened HomeState
  import opened HomeRun
  import opened Retention

  const OWNER_MAX_AGE: nat := 120

  // A signed owner request. `genuine` is the verdict of the scope and signature checks.
  datatype OwnerRequest = OwnerRequest(nonce: Key, ts: nat, hint: Key, cursor: U64, limit: nat, genuine: bool)

  /** Freshness window of an owner request around the server clock. */
  predicate InWindow(ts: nat, now: nat) {
    SatSub(now, ts) <= OWNER_MAX_AGE && ts <= now + OWNER_MAX_AGE
  }

  /** The nonces still remembered at `now`. */
  function KeepNonces(nonces: map<Key, nat>, now: nat): map<Key, nat> {
    map n | n in nonces && SatSub(now, nonces[n]) <= OWNER_MAX_AGE :: nonces[n]
  }

  /** Owner check: the new nonce table and whether the request is accepted. */
  function CheckNonce(nonces: map<Key, nat>, req: OwnerRequest, now: nat): (map<Key, nat>, bool) {
    if !req.genuine || !InWindow(req.ts, now) then (nonces, false)
    else
      var kept := KeepNonces(nonces, now);
      if req.nonce in kept then (kept, false) else (kept[req.nonce := req.ts], true)
  }

  /** Who is let in: the mailbox is enabled, the request genuine and fresh, its nonce not remembered within its age. */
  predicate Admits(boxes: map<Key, Mailbox>, nonces: map<Key, nat>, owner: Key, req: OwnerRequest, clock: nat) {
    && owner in boxes && !boxes[owner].disabled && req.hint == owner
    && req.genuine && InWindow(req.ts, clock)
    && (req.nonce in nonces ==> SatSub(clock, nonces[req.nonce]) > OWNER_MAX_AGE)
  }

  predicate Fetchable(row: StoredEnvelope, cursor: nat, now: nat) {
    row.seqNo > cursor && row.expiresAt > now
  }

  /** `batch` is the first `limit` fetchable rows in sequence order. */
  ghost predicate IsBatch(rows: map<nat, StoredEnvelope>, cursor: nat, now: nat, limit: nat, batch: seq<StoredEnvelope>) {
    && |batch| <= limit
    && (forall i :: 0 <= i < |batch| ==>
          batch[i].seqNo in rows && rows[batch[i].seqNo] == batch[i] && Fetchable(batch[i], cursor, now))
    && (forall i, j :: 0 <= i < j < |batch| ==> batch[i].seqNo < batch[j].seqNo)
    && (forall s :: s in rows && Fetchable(rows[s], cursor, now) && rows[s] !in batch ==>
          |batch| == limit && forall i :: 0 <= i < |batch| ==> batch[i].seqNo < s)
  }

  lemma LeastExists(keys: set<nat>)
    requires keys != {}
    ensures exists k :: k in keys && forall s :: s in keys ==> k <= s
  {
    var k := LeastKey(keys);
  }

  /** Remove rows one by one, in no particular order. */
  method RemoveRows(box: Mailbox, gone: set<nat>) returns (m: Mailbox)
    requires MailboxOk(box) && gone <= box.rows.Keys
    ensures m == Trim(box, box.rows.Keys - gone)
  {
    m := box;
    var todo := gone;
    TrimNothing(box);
    ghost var keep := box.rows.Keys;
    while todo != {}
      invariant todo <= gone && MailboxOk(m) && m.rows.Keys == keep
      invariant keep == box.rows.Keys - (gone - todo) && m == Trim(box, keep)
      decreases todo
    {
      var s :| s in todo;
      TrimOneMore(box, keep, s);
      m, todo, keep := RemoveRow(m, s), todo - {s}, keep - {s};
    }
    assert keep == box.rows.Keys - gone;
  }

  lemma TrimOneMore(m: Mailbox, keep: set<nat>, s: nat)
    requires MailboxOk(m) && keep <= m.rows.Keys && s in keep
    ensures Trim(m, keep).rows.Keys == keep && Trim(m, keep - {s}).rows.Keys == keep - {s}
    ensures RemoveRow(Trim(m, keep), s) == Trim(m, keep - {s})
    ensures MailboxOk(Trim(m, keep - {s}))
  {
    TrimOk(m, keep);
    TrimOk(m, keep - {s});
    assert Trim(m, keep).rows.Keys == keep;
    assert Trim(m, keep - {s}).rows.Keys == keep - {s};
    hide MailboxOk, Trim;
    RemoveRowTrims(Trim(m, keep), s);
    TrimTwice(m, keep, keep - {s});
    assert keep * (keep - {s}) == keep - {s};
  }

  method PickLeast(keys: set<nat>) returns (k: nat)
    requires keys != {}
    ensures k in keys && forall s :: s in keys ==> k <= s
  {
    LeastExists(keys);
    k :| k in keys && forall s :: s in keys ==> k <= s;
  }

  /** The state of dropping oldest rows: `dropped` are gone, each because the rows from it on did not fit. */
  ghost predicate Dropping(box: Mailbox, m: Mailbox, dropped: set<nat>, maxBytes: nat) {
    && dropped <= box.rows.Keys
    && m == Trim(box, box.rows.Keys - dropped)
    && m.rows.Keys == box.rows.Keys - dropped
    && UpwardClosed(box.rows, m.rows.Keys)
    && forall s :: s in dropped ==> Bytes(From(box.rows, s)) > maxBytes
  }

  lemma DropStart(box: Mailbox, maxBytes: nat)
    requires MailboxOk(box)
    ensures Dropping(box, box, {}, maxBytes)
  {
    TrimNothing(box);
    assert box.rows.Keys - {} == box.rows.Keys;
  }

  lemma DropStep(box: Mailbox, m: Mailbox, dropped: set<nat>, maxBytes: nat, oldest: nat)
    requires MailboxOk(box) && Dropping(box, m, dropped, maxBytes) && m.bytes > maxBytes
    requires oldest in m.rows.Keys && forall s :: s in m.rows.Keys ==> oldest <= s
    ensures Dropping(box, RemoveRow(m, oldest), dropped + {oldest}, maxBytes)
  {
    var keep := box.rows.Keys - dropped;
    KeepStep(box, keep, oldest, maxBytes);
    assert box.rows.Keys - (dropped + {oldest}) == keep - {oldest};
    hide MailboxOk, RemoveRow, Trim, UpwardClosed, Bytes, From;
  }

  lemma KeepStep(box: Mailbox, keep: set<nat>, oldest: nat, maxBytes: nat)
    requires MailboxOk(box) && keep <= box.rows.Keys && UpwardClosed(box.rows, keep) && Trim(box, keep).bytes > maxBytes
    requires oldest in keep && forall s :: s in keep ==> oldest <= s
    ensures RemoveRow(Trim(box, keep), oldest) == Trim(box, keep - {oldest})
    ensures Trim(box, keep - {oldest}).rows.Keys == keep - {oldest} && UpwardClosed(box.rows, keep - {oldest})
    ensures Bytes(From(box.rows, oldest)) > maxBytes
  {
    SuffixFrom(box.rows, keep, oldest);
    TrimOneMore(box, keep, oldest);
    TrimBytes(box, keep);
    hide MailboxOk, RemoveRow, Trim, UpwardClosed, Restrict, Bytes, From;
  }

  lemma TrimBytes(box: Mailbox, keep: set<nat>)
    ensures Trim(box, keep).bytes == Bytes(Restrict(box.rows, keep))
  {
    hide Bytes, Restrict;
  }

  /** Drop the oldest row until what is left fits. */
  method DropOldest(box: Mailbox, maxBytes: nat) returns (m: Mailbox, dropped: set<nat>)
    requires MailboxOk(box)
    ensures dropped <= box.rows.Keys && m == Trim(box, box.rows.Keys - dropped)
    ensures forall s :: s in box.rows ==> (s in dropped <==> Bytes(From(box.rows, s)) > maxBytes)
  {
    m, dropped := box, {};
    DropStart(box, maxBytes);
    hide MailboxOk, Trim, UpwardClosed;
    while m.bytes > maxBytes
      invariant Dropping(box, m, dropped, maxBytes)
      decreases |m.rows|
    {
      if m.rows == map[] { break; }
      var oldest := PickLeast(m.rows.Keys);
      DropStep(box, m, dropped, maxBytes, oldest);
      m, dropped := RemoveRow(m, oldest), dropped + {oldest};
    }
    EmptyFits(box, m.rows.Keys, maxBytes);
    KeptAllFit(box, m.rows.Keys, maxBytes);
  }

  lemma EmptyFits(box: Mailbox, keep: set<nat>, maxBytes: nat)
    ensures keep == {} ==> Trim(box, keep).bytes <= maxBytes
  {
    assert keep == {} ==> Restrict(box.rows, keep) == map[];
  }

  lemma SuffixFrom(rows: map<nat, StoredEnvelope>, keep: set<nat>, oldest: nat)
    requires UpwardClosed(rows, keep) && oldest in keep && forall s :: s in keep ==> oldest <= s
    ensures From(rows, oldest) == Restrict(rows, keep)
    ensures UpwardClosed(rows, keep - {oldest})
  {
  }

  lemma KeptAllFit(box: Mailbox, keep: set<nat>, maxBytes: nat)
    requires UpwardClosed(box.rows, keep) && Trim(box, keep).bytes <= maxBytes
    ensures forall s :: s in keep ==> Bytes(From(box.rows, s)) <= maxBytes
  {
    forall s | s in keep ensures Bytes(From(box.rows, s)) <= maxBytes {
      BytesMonotone(From(box.rows, s), Restrict(box.rows, keep));
    }
  }

  /** The two passes of collection together drop exactly the rows retention does not keep. */
  lemma GcTwoPasses(box: Mailbox, expired: set<nat>, aged: set<nat>, now: nat, lim: Limits)
    requires MailboxOk(box) && expired == set s | s in box.rows && Expired(box.rows[s], now, lim.maxAge)
    requires var live := Trim(box, box.rows.Keys - expired);
             && aged <= live.rows.Keys
             && forall s :: s in live.rows ==> (s in aged <==> Bytes(From(live.rows, s)) > lim.maxBytes)
    ensures var live := Trim(box, box.rows.Keys - expired);
            Trim(live, live.rows.Keys - aged) == Trim(box, box.rows.Keys - (expired + aged))
    ensures expired + aged == box.rows.Keys - Retained(box.rows, now, lim)
  {
    var live := Trim(box, box.rows.Keys - expired);
    assert live.rows == Live(box.rows, now, lim.maxAge);
    assert live.rows.Keys == box.rows.Keys - expired;
    assert expired + aged == box.rows.Keys - Retained(box.rows, now, lim);
    hide MailboxOk, Retained, Live, Expired;
    TrimTwice(box, box.rows.Keys - expired, live.rows.Keys - aged);
    assert (box.rows.Keys - expired) * (live.rows.Keys - aged) == box.rows.Keys - (expired + aged);
  }

  /** Drop expired rows, then the oldest ones until the rest fits: exactly the retained rows are left. */
  method Collect(box: Mailbox, now: nat, lim: Limits) returns (m: Mailbox, dropped: set<nat>)
    requires MailboxOk(box)
    ensures dropped == box.rows.Keys - Retained(box.rows, now, lim)
    ensures m == Trim(box, box.rows.Keys - dropped)
  {
    hide MailboxOk, Retained, Trim;
    var expired := set s | s in box.rows && Expired(box.rows[s], now, lim.maxAge);
    var live := RemoveRows(box, expired);
    TrimOk(box, box.rows.Keys - expired);
    var aged;
    m, aged := DropOldest(live, lim.maxBytes);
    GcTwoPasses(box, expired, aged, now, lim);
    dropped := expired + aged;
  }

  lemma StoreKeepsSound(h: Home, owner: Key, inner: Inner, size: nat)
    requires Valid(h) && Enabled(h, owner) && PaddedLen(inner) == Some(size)
    requires inner.idem !in h.mailboxes[owner].idem
    ensures MailboxesOk(h.mailboxes[owner := StoreRow(h.mailboxes[owner], h.now, h.limits, inner, size)])
  {
    hide MailboxOk, StoreRow;
    StoreRowOk(h.mailboxes[owner], h.now, h.limits, inner, size);
  }

  /** A batch in the making: `todo` are the fetchable rows not taken yet, all later than those taken. */
  ghost predicate Batching(rows: map<nat, StoredEnvelope>, cursor: nat, now: nat, batch: seq<StoredEnvelope>, todo: set<nat>) {
    && (forall s :: s in todo ==> s in rows && Fetchable(rows[s], cursor, now))
    && (forall s :: s in rows && Fetchable(rows[s], cursor, now) ==> s in todo || rows[s] in batch)
    && (forall i :: 0 <= i < |batch| ==>
          batch[i].seqNo in rows && rows[batch[i].seqNo] == batch[i] && Fetchable(batch[i], cursor, now))
    && (forall i, s :: 0 <= i < |batch| && s in todo ==> batch[i].seqNo < s)
    && (forall i, j :: 0 <= i < j < |batch| ==> batch[i].seqNo < batch[j].seqNo)
  }

  lemma BatchStep(rows: map<nat, StoredEnvelope>, cursor: nat, now: nat, batch: seq<StoredEnvelope>, todo: set<nat>, next: nat)
    requires Batching(rows, cursor, now, batch, todo) && next in todo && forall s :: s in todo ==> next <= s
    requires forall s :: s in rows ==> rows[s].seqNo == s
    ensures next in rows
    ensures Batching(rows, cursor, now, batch + [rows[next]], todo - {next})
  {
    var b := batch + [rows[next]];
    forall s | s in rows && Fetchable(rows[s], cursor, now) ensures s in todo - {next} || rows[s] in b {
      if s == next { assert b[|batch|] == rows[next]; }
      else if rows[s] in batch { assert rows[s] in b; }
    }
  }

  /** Take rows in sequence order while they are fetchable and the batch has room. */
  method FirstRows(rows: map<nat, StoredEnvelope>, cursor: nat, now: nat, limit: nat) returns (batch: seq<StoredEnvelope>)
    requires forall s :: s in rows ==> rows[s].seqNo == s
    ensures IsBatch(rows, cursor, now, limit, batch)
  {
    batch := [];
    var todo := set s | s in rows && Fetchable(rows[s], cursor, now);
    BatchStart(rows, cursor, now);
    hide *;
    while todo != {} && |batch| < limit
      invariant |batch| <= limit && Batching(rows, cursor, now, batch, todo)
      decreases limit - |batch|
    {
      var next := PickLeast(todo);
      BatchStep(rows, cursor, now, batch, todo, next);
      batch, todo := batch + [rows[next]], todo - {next};
    }
    BatchDone(rows, cursor, now, limit, batch, todo);
  }

  lemma BatchStart(rows: map<nat, StoredEnvelope>, cursor: nat, now: nat)
    ensures Batching(rows, cursor, now, [], set s | s in rows && Fetchable(rows[s], cursor, now))
  {
  }

  lemma BatchDone(rows: map<nat, StoredEnvelope>, cursor: nat, now: nat, limit: nat, batch: seq<StoredEnvelope>, todo: set<nat>)
    requires Batching(rows, cursor, now, batch, todo) && |batch| <= limit && (todo == {} || |batch| == limit)
    ensures IsBatch(rows, cursor, now, limit, batch)
  {
  }

  /** Remove every row up to the cursor, one by one; their idempotency entries stay. */
  method DropAcked(box: Mailbox, upTo: nat) returns (m: Mailbox)
    requires MailboxOk(box)
    ensures m == AckRows(box, upTo)
    ensures m.rows == box.rows <==> forall s :: s in box.rows ==> s > upTo
  {
    m := box;
    var drop := set s | s in box.rows && s <= upTo;
    assert Less(box, {}) == box by { assert box.rows - {} == box.rows; }
    AckedRows(box, drop, upTo);
    hide MailboxOk, AckRows, Less;
    ghost var gone := {};
    var todo := drop;
    while todo != {}
      invariant todo <= drop && gone == drop - todo
      invariant m == Less(box, gone)
      decreases todo
    {
      var s :| s in todo;
      LessOne(box, gone, s);
      m := m.(rows := m.rows - {s}, bytes := SatSub(m.bytes, RowSize(m.rows[s])));
      todo, gone := todo - {s}, gone + {s};
    }
    assert gone == drop;
  }

  /** The mailbox with some rows taken out and the byte count of the rest. */
  ghost function Less(box: Mailbox, gone: set<nat>): Mailbox {
    box.(rows := box.rows - gone, bytes := Bytes(box.rows - gone))
  }

  lemma LessOne(box: Mailbox, gone: set<nat>, s: nat)
    requires s in box.rows && s !in gone
    ensures var m := Less(box, gone);
            s in m.rows
            && Less(box, gone + {s}) == m.(rows := m.rows - {s}, bytes := SatSub(m.bytes, RowSize(m.rows[s])))
  {
    assert box.rows - gone - {s} == box.rows - (gone + {s});
    BytesRemove(box.rows - gone, s);
    hide Bytes;
  }

  lemma AckedRows(box: Mailbox, drop: set<nat>, upTo: nat)
    requires drop == set s | s in box.rows && s <= upTo
    ensures AckRows(box, upTo) == Less(box, drop)
    ensures AckRows(box, upTo).rows == box.rows <==> forall s :: s in box.rows ==> s > upTo
  {
    hide Bytes;
    assert AckRows(box, upTo).rows == box.rows - drop;
    if s :| s in drop { assert s in box.rows && s !in box.rows - drop; }
  }

  class HomeServer {
    const serverId: Key
    const limits: Limits
    var now: nat
    var mailboxes: map<Key, Mailbox>
    var directory: map<Key, DirectoryRow>
    var memberships: map<Key, seq<Key>>
    var tokens: seq<TokenRow>
    var prekeys: map<Key, seq<Blob>>
    var seen: map<Key, nat>
    var peers: map<Key, Peer>
    var outbound: seq<OutboundRow>
    var dirty: HomeDirty
    var ownerNonces: map<Key, nat>

    function View(): Home
      reads this
    {
      Home(serverId, now, limits, mailboxes, directory, memberships, tokens, prekeys, seen, peers, outbound, dirty)
    }

    constructor (serverId: Key, limits: Limits, now: nat)
      ensures Valid(View())
      ensures View() == Home(serverId, now, limits, map[], map[], map[], [], map[], map[], map[], [], CLEAN)
      ensures ownerNonces == map[]
    {
      this.serverId, this.limits, this.now := serverId, limits, now;
      mailboxes, directory, memberships, tokens := map[], map[], map[], [];
      prekeys, seen, peers, outbound, dirty, ownerNonces := map[], map[], map[], [], CLEAN, map[];
    }

    // ------------------------------------------------------------ token lookup

    /** Scan every row and remember the last match, so that timing does not depend on where it is. */
    method FindToken(want: Key) returns (idx: int)
      ensures idx == LastIndex(tokens, want)
    {
      idx := -1;
      for i := 0 to |tokens|
        invariant -1 <= idx < i
        invariant idx == LastIndex(tokens[..i], want)
      {
        assert tokens[..i + 1][..i] == tokens[..i];
        if tokens[i].token == want { idx := i; }
      }
      assert tokens[..|tokens|] == tokens;
    }

    // ------------------------------------------------------- identity lifecycle

    method RegisterIdentity(id: Key, pk: Key) returns (r: Reply<()>)
      modifies this
      ensures (View(), r) == Register(old(View()), id, pk)
      ensures ownerNonces == old(ownerNonces)
    {
      if id in mailboxes { return Err(AlreadyRegistered); }
      mailboxes := mailboxes[id := NewMailbox(pk)];
      dirty := dirty.(identities := dirty.identities + {id});
      return Ok(());
    }

    method RegisterShareToken(owner: Key, token: Key, ttl: Option<nat>) returns (r: Reply<()>)
      modifies this
      ensures (View(), r) == RegisterShare(old(View()), owner, token, ttl)
      ensures ownerNonces == old(ownerNonces)
    {
      if owner !in mailboxes || mailboxes[owner].disabled { return Err(Denied); }
      var secs := if ttl.Some? then ttl.value else SHARE_TTL_DEFAULT;
      if !AllowedIntroTtl(secs) { return Err(Denied); }
      tokens := tokens + [TokenRow(token, Share(owner, now + secs, false, None))];
      dirty := dirty.(tokens := dirty.tokens + {token});
      return Ok(());
    }

    method RegisterCard(card: Card, verified: bool) returns (r: Reply<()>)
      modifies this
      ensures (View(), r) == RegisterFromCard(old(View()), card, verified)
      ensures ownerNonces == old(ownerNonces)
    {
      if !verified { return Err(Wire); }
      if card.binding.serverId != serverId { return Err(Denied); }
      r := RegisterIdentity(card.id, card.identityPk);
      if r.Err? { return; }
      directory := directory[card.id := DirectoryRow(card.identityPk, card.revocationPk, card.binding,
                                                     card.binding.seqNo, None)];
      r := RegisterShareToken(card.id, card.shareToken, None);
    }

    /** Remove the rows one by one, then the prekeys and capabilities, and journal all of it. */
    method DisableMailbox(owner: Key)
      requires MailboxesOk(mailboxes)
      modifies this
      ensures View() == Disable(old(View()), owner)
      ensures ownerNonces == old(ownerNonces)
    {
      if owner in mailboxes {
        var m := RemoveRows(mailboxes[owner], mailboxes[owner].rows.Keys);
        assert mailboxes[owner].rows.Keys - mailboxes[owner].rows.Keys == {};
        mailboxes := mailboxes[owner := m.(disabled := true)];
      }
      prekeys := prekeys - {owner};
      tokens := WithoutOwner(tokens, owner);
      dirty := dirty.(mailboxCleared := dirty.mailboxCleared + {owner},
                      tokensDropped := dirty.tokensDropped + {owner},
                      prekeys := dirty.prekeys + {owner},
                      identities := dirty.identities + {owner});
    }

    method Observe(id: Key, binding: Binding, verified: bool) returns (r: Reply<()>)
      requires MailboxesOk(mailboxes)
      modifies this
      ensures (View(), r) == ObserveBinding(old(View()), id, binding, verified)
      ensures ownerNonces == old(ownerNonces)
    {
      if id !in directory && id !in mailboxes { return Err(Denied); }
      if !verified { return Err(Denied); }
      var stored := if id in directory then directory[id].bindingSeq else 0;
      if binding.seqNo <= stored { return Ok(()); }
      if id in directory {
        directory := directory[id := directory[id].(binding := binding, bindingSeq := binding.seqNo)];
      } else {
        directory := directory[id := DirectoryRow(mailboxes[id].ownerPk, 0, binding, binding.seqNo, None)];
      }
      dirty := dirty.(identities := dirty.identities + {id});
      if binding.serverId != serverId { DisableMailbox(id); }
      return Ok(());
    }

    method NoteGroupMembership(id: Key, group: Key)
      modifies this
      ensures View() == NoteMembership(old(View()), id, group)
      ensures ownerNonces == old(ownerNonces)
    {
      var list := if id in memberships then memberships[id] else [];
      if group !in list {
        memberships := memberships[id := list + [group]];
        dirty := dirty.(memberships := dirty.memberships + {id});
      }
    }

    method Revoke(id: Key, stmt: Blob, verified: bool) returns (r: Reply<seq<Key>>)
      requires MailboxesOk(mailboxes)
      modifies this
      ensures (View(), r) == IngestRevocation(old(View()), id, stmt, verified)
      ensures ownerNonces == old(ownerNonces)
    {
      if id !in directory || !verified { return Err(Denied); }
      directory := directory[id := directory[id].(revocation := Some(stmt))];
      dirty := dirty.(identities := dirty.identities + {id});
      DisableMailbox(id);
      if id !in memberships { return Ok([]); }
      r := Ok(memberships[id]);
      memberships := memberships - {id};
      dirty := dirty.(memberships := dirty.memberships + {id});
    }

    // ------------------------------------------------------------- capabilities

    /** The newest contact capability of one owner, in one pass over the rows. */
    method NewestContact(owner: Key) returns (best: int)
      ensures -1 <= best < |tokens|
      ensures forall i :: 0 <= i < |tokens| && tokens[i].kind.mailbox == owner ==> (Newest(tokens, i) <==> i == best)
    {
      best := -1;
      for i := 0 to |tokens|
        invariant -1 <= best < i
        invariant best >= 0 ==> tokens[best].kind.Contact? && tokens[best].kind.mailbox == owner
        invariant forall j :: 0 <= j < i && tokens[j].kind.Contact? && tokens[j].kind.mailbox == owner ==>
                    best >= 0 && (tokens[j].kind.windowStart < tokens[best].kind.windowStart
                                  || (tokens[j].kind.windowStart == tokens[best].kind.windowStart && j <= best))
      {
        var kind := tokens[i].kind;
        if kind.Contact? && kind.mailbox == owner {
          if best < 0 || kind.windowStart >= tokens[best].kind.windowStart { best := i; }
        }
      }
      forall i | 0 <= i < |tokens| && tokens[i].kind.mailbox == owner
        ensures Newest(tokens, i) <==> i == best
      {
        assert Newest(tokens, i) ==> best >= 0 && tokens[best].kind.Contact? && (i < best || best <= i);
      }
    }

    method DropTokensExact(dead: set<Key>)
      modifies this
      ensures View() == DropTokens(old(View()), dead)
      ensures ownerNonces == old(ownerNonces)
    {
      tokens := Without(tokens, dead);
      dirty := dirty.(tokens := dirty.tokens - dead, tokensDroppedExact := dirty.tokensDroppedExact + dead);
    }

    method SweepDeadTokensFor(owner: Key) returns (dead: set<Key>)
      modifies this
      ensures View() == SweepFor(old(View()), owner)
      ensures dead == DeadFor(old(View()), owner)
      ensures ownerNonces == old(ownerNonces)
    {
      var survivor := NewestContact(owner);
      var orphan := owner !in mailboxes || mailboxes[owner].disabled;
      dead := {};
      for i := 0 to |tokens|
        invariant dead == set j | 0 <= j < i && tokens[j].kind.mailbox == owner && Reclaimable(View(), j) :: tokens[j].token
      {
        var kind := tokens[i].kind;
        if kind.mailbox == owner {
          var reap := orphan || match kind {
            case Share(_, e, _, reserved) => ShareDead(e, reserved, now)
            case Contact(_, g, s, _) => i != survivor && !(g.Some? && now < g.value) && ContactDead(s, now)
          };
          assert reap == Reclaimable(View(), i);
          if reap { dead := dead + {tokens[i].token}; }
        }
      }
      DropTokensExact(dead);
    }

    /** One pass finds every owner's newest capability; a second collects what is dead. */
    method SweepDeadTokens() returns (dead: set<Key>)
      modifies this
      ensures View() == Sweep(old(View()))
      ensures dead == DeadTokens(old(View()))
      ensures ownerNonces == old(ownerNonces)
    {
      var survivors: map<Key, nat> := map[];
      for i := 0 to |tokens|
        invariant forall o :: o in survivors ==>
                    survivors[o] < i && tokens[survivors[o]].kind.Contact? && tokens[survivors[o]].kind.mailbox == o
        invariant forall j :: 0 <= j < i && tokens[j].kind.Contact? ==>
                    tokens[j].kind.mailbox in survivors
                    && (var b := survivors[tokens[j].kind.mailbox];
                        tokens[j].kind.windowStart < tokens[b].kind.windowStart
                        || (tokens[j].kind.windowStart == tokens[b].kind.windowStart && j <= b))
      {
        var kind := tokens[i].kind;
        if kind.Contact? {
          if kind.mailbox !in survivors || kind.windowStart >= tokens[survivors[kind.mailbox]].kind.windowStart {
            survivors := survivors[kind.mailbox := i];
          }
        }
      }
      forall i | 0 <= i < |tokens| && tokens[i].kind.Contact?
        ensures Newest(tokens, i) <==> survivors[tokens[i].kind.mailbox] == i
      {
        var b := survivors[tokens[i].kind.mailbox];
        assert tokens[b].kind.Contact?;
      }
      dead := {};
      for i := 0 to |tokens|
        invariant dead == set j | 0 <= j < i && Reclaimable(View(), j) :: tokens[j].token
      {
        var kind := tokens[i].kind;
        var reap := kind.mailbox !in mailboxes || mailboxes[kind.mailbox].disabled || match kind {
          case Share(_, e, _, reserved) => ShareDead(e, reserved, now)
          case Contact(o, g, s, _) => survivors[o] != i && !(g.Some? && now < g.value) && ContactDead(s, now)
        };
        assert reap == Reclaimable(View(), i);
        if reap { dead := dead + {tokens[i].token}; }
      }
      DropTokensExact(dead);
    }

    method MintContactCapability(owner: Key, token: Key) returns (r: Reply<()>)
      modifies this
      ensures (View(), r) == MintContact(old(View()), owner, token)
      ensures ownerNonces == old(ownerNonces)
    {
      if owner !in mailboxes || mailboxes[owner].disabled { return Err(Denied); }
      var _ := SweepDeadTokensFor(owner);
      tokens := tokens + [TokenRow(token, Contact(owner, None, now, 0))];
      dirty := dirty.(tokens := dirty.tokens + {token});
      return Ok(());
    }

    method Rotate(owner: Key, oldToken: Key, confirm: bool, token: Key) returns (r: Reply<()>)
      modifies this
      ensures (View(), r) == RotateContact(old(View()), owner, oldToken, confirm, token)
      ensures ownerNonces == old(ownerNonces)
    {
      hide MintContact, SetKind;
      r := MintContactCapability(owner, token);
      if r.Err? { return; }
      var i := FindToken(oldToken);
      hide LastIndex;
      if confirm && i >= 0 && tokens[i].kind.Contact? && tokens[i].kind.mailbox == owner {
        tokens := SetKind(tokens, i, tokens[i].kind.(graceUntil := Some(now + CONTACT_GRACE_SECS)));
        dirty := dirty.(tokens := dirty.tokens + {oldToken});
      }
      return Ok(());
    }

    method Publish(owner: Key, blob: Blob) returns (r: Reply<()>)
      modifies this
      ensures (View(), r) == PublishPrekey(old(View()), owner, blob)
      ensures ownerNonces == old(ownerNonces)
    {
      if owner !in mailboxes || mailboxes[owner].disabled { return Err(Denied); }
      prekeys := prekeys[owner := (if owner in prekeys then prekeys[owner] else []) + [blob]];
      dirty := dirty.(prekeys := dirty.prekeys + {owner});
      return Ok(());
    }

    method TakePrekey(token: Key) returns (r: Reply<Blob>)
      modifies this
      ensures (View(), r) == FetchPrekey(old(View()), token)
      ensures ownerNonces == old(ownerNonces)
    {
      var i := FindToken(token);
      if i < 0 || !ShareUsable(tokens[i].kind, now) { return Err(Denied); }
      var kind := tokens[i].kind;
      if kind.reserved.Some? { return Ok(kind.reserved.value); }
      if kind.mailbox !in prekeys || prekeys[kind.mailbox] == [] { return Err(Denied); }
      var blob := prekeys[kind.mailbox][0];
      prekeys := prekeys[kind.mailbox := prekeys[kind.mailbox][1..]];
      tokens := SetKind(tokens, i, kind.(reserved := Some(blob)));
      dirty := dirty.(prekeys := dirty.prekeys + {kind.mailbox}, tokens := dirty.tokens + {token});
      return Ok(blob);
    }

    // ------------------------------------------------------------------ mailbox

    method GcMailbox(owner: Key)
      requires MailboxesOk(mailboxes)
      modifies this
      ensures View() == Gc(old(View()), owner)
      ensures ownerNonces == old(ownerNonces)
    {
      if owner !in mailboxes { return; }
      hide Trim, MailboxOk, Retained, Keyed;
      var m, dropped := Collect(mailboxes[owner], now, limits);
      if dropped != {} {
        mailboxes := mailboxes[owner := m];
        dirty := dirty.(mailboxDropped := dirty.mailboxDropped + Keyed(owner, dropped),
                        identities := dirty.identities + {owner});
      }
    }

    method Authorize(token: Key) returns (r: Reply<Key>)
      modifies this
      ensures (View(), r) == AuthorizeAppend(old(View()), token)
      ensures ownerNonces == old(ownerNonces)
    {
      var i := FindToken(token);
      hide LastIndex;
      if i < 0 { return Err(Denied); }
      var kind := tokens[i].kind;
      if kind.Share? {
        if !ShareUsable(kind, now) { return Err(Denied); }
      } else {
        if kind.graceUntil.Some? && now >= kind.graceUntil.value { return Err(Denied); }
        var start, count := kind.windowStart, kind.windowCount;
        if SatSub(now, start) >= 60 { start, count := now, 0; }
        if count >= RATE_PER_MIN { return Err(Denied); }
        tokens := SetKind(tokens, i, Contact(kind.mailbox, kind.graceUntil, start, count + 1));
        dirty := dirty.(tokens := dirty.tokens + {token});
      }
      if kind.mailbox in mailboxes && mailboxes[kind.mailbox].disabled { return Err(Denied); }
      return Ok(kind.mailbox);
    }

    method Burn(token: Key)
      modifies this
      ensures View() == BurnIfShare(old(View()), token)
      ensures ownerNonces == old(ownerNonces)
    {
      var i := FindToken(token);
      hide LastIndex;
      if i >= 0 && tokens[i].kind.Share? && !tokens[i].kind.burned {
        tokens := SetKind(tokens, i, tokens[i].kind.(burned := true));
        dirty := dirty.(tokens := dirty.tokens + {token});
      }
    }

    method Append(inner: Inner) returns (r: Reply<nat>)
      requires Valid(View())
      modifies this
      ensures (View(), r) == AppendInner(old(View()), inner)
      ensures ownerNonces == old(ownerNonces)
    {
      AuthorizeValid(View(), inner.capability);
      hide Valid, MailboxOk, Gc, BurnIfShare, AuthorizeAppend, StoreRow;
      var who := Authorize(inner.capability);
      if who.Err? { return Err(who.error); }
      var owner := who.value;
      if owner !in mailboxes { return Err(Denied); }
      var m := mailboxes[owner];
      if inner.idem in m.idem { return Ok(m.idem[inner.idem]); }
      var size := PaddedLen(inner);
      if size.None? { return Err(Wire); }
      StoreKeepsSound(View(), owner, inner, size.value);
      mailboxes := mailboxes[owner := StoreRow(m, now, limits, inner, size.value)];
      dirty := dirty.(mailboxNew := dirty.mailboxNew + [(owner, m.nextSeq)],
                      identities := dirty.identities + {owner});
      Burn(inner.capability);
      GcMailbox(owner);
      return Ok(m.nextSeq);
    }

    method IngestOuter(enc: Option<Key>, plain: Option<Inner>) returns (r: Reply<nat>)
      requires Valid(View())
      modifies this
      ensures (View(), r) == Ingest(old(View()), enc, plain)
      ensures ownerNonces == old(ownerNonces)
    {
      hide Valid, AppendInner;
      if enc.None? { return Err(Wire); }
      if enc.value in seen { return Ok(seen[enc.value]); }
      if plain.None? { return Err(Wire); }
      r := Append(plain.value);
      if r.Err? { return; }
      if |seen| >= HPKE_ENC_WINDOW {
        seen := map[];
        dirty := dirty.(seenCleared := true);
      }
      seen := seen[enc.value := r.value];
      if !dirty.seenCleared { dirty := dirty.(seenNew := dirty.seenNew + [enc.value]); }
    }

    /** Verify freshness, forget stale nonces, then refuse a nonce that is still remembered. */
    method CheckOwner(owner: Key, req: OwnerRequest, clock: nat) returns (ok: bool)
      modifies this`ownerNonces
      ensures ok <==> Admits(mailboxes, old(ownerNonces), owner, req, clock)
      ensures ok ==> ownerNonces == KeepNonces(old(ownerNonces), clock)[req.nonce := req.ts]
      ensures owner in mailboxes && !mailboxes[owner].disabled && req.hint == owner ==>
                (ownerNonces, ok) == CheckNonce(old(ownerNonces), req, clock)
      ensures !ok ==> ownerNonces == old(ownerNonces) || ownerNonces == KeepNonces(old(ownerNonces), clock)
    {
      if owner !in mailboxes || mailboxes[owner].disabled || req.hint != owner { return false; }
      if !req.genuine || !InWindow(req.ts, clock) { return false; }
      ownerNonces := KeepNonces(ownerNonces, clock);
      if req.nonce in ownerNonces { return false; }
      ownerNonces := ownerNonces[req.nonce := req.ts];
      return true;
    }

    /** Authenticate, collect, and return the first `limit` rows after the cursor. */
    method FetchRows(owner: Key, req: OwnerRequest, clock: nat) returns (r: Reply<seq<StoredEnvelope>>)
      requires Valid(View())
      modifies this
      ensures r == Err(OwnerAuth) <==> !Admits(old(mailboxes), old(ownerNonces), owner, req, clock)
      ensures r.Ok? <==> Admits(old(mailboxes), old(ownerNonces), owner, req, clock) && 0 < req.limit <= FETCH_LIMIT_MAX
      ensures r.Err? ==> r.error == OwnerAuth || r.error == FetchLimit
      ensures r != Err(OwnerAuth) ==> ownerNonces == KeepNonces(old(ownerNonces), clock)[req.nonce := req.ts]
      ensures r.Ok? ==>
                && View() == Gc(old(View()), owner) && owner in mailboxes
                && IsBatch(mailboxes[owner].rows, req.cursor, now, req.limit, r.value)
      ensures r.Err? ==> View() == old(View())
    {
      var ok := CheckOwner(owner, req, clock);
      if !ok { return Err(OwnerAuth); }
      if req.limit == 0 || req.limit > FETCH_LIMIT_MAX { return Err(FetchLimit); }
      GcValid(View(), owner);
      GcMailbox(owner);
      var batch := FirstRows(mailboxes[owner].rows, req.cursor, now, req.limit);
      return Ok(batch);
    }

    method AckUpTo(owner: Key, req: OwnerRequest, clock: nat) returns (r: Reply<()>)
      requires Valid(View())
      modifies this
      ensures r == if Admits(old(mailboxes), old(ownerNonces), owner, req, clock) then Ok(()) else Err(OwnerAuth)
      ensures r.Ok? ==> ownerNonces == KeepNonces(old(ownerNonces), clock)[req.nonce := req.ts]
      ensures r.Ok? ==> (View(), r) == Ack(old(View()), owner, req.cursor)
      ensures r.Err? ==> View() == old(View())
    {
      var ok := CheckOwner(owner, req, clock);
      if !ok { return Err(OwnerAuth); }
      var m := mailboxes[owner];
      assert MailboxOk(m);
      hide Valid, MailboxOk;
      var m1 := DropAcked(m, req.cursor);
      if m1.rows == m.rows { return Ok(()); }
      mailboxes := mailboxes[owner := m1];
      dirty := MarkAcked(dirty, owner, req.cursor);
      return Ok(());
    }

    // --------------------------------------------------------------- federation

    method TakeNextFrame(peer: Key, payload: Payload) returns (r: Reply<Frame>)
      modifies this
      ensures (View(), r) == TakeFrame(old(View()), peer, payload)
      ensures ownerNonces == old(ownerNonces)
    {
      if peer !in peers { return Err(NotPinned); }
      if peers[peer].refused { return Err(PeerRefused); }
      var counter := peers[peer].nextTx;
      peers := peers[peer := peers[peer].(nextTx := counter + 1)];
      dirty := dirty.(peers := dirty.peers + {peer});
      return Ok(Frame(counter, payload));
    }

    method Handle(from: Key, enc: Option<Key>, plain: Option<Inner>) returns (reply: Payload)
      requires Valid(View()) && from in peers
      modifies this
      ensures (View(), reply) == HandleCiphertext(old(View()), from, enc, plain)
      ensures ownerNonces == old(ownerNonces)
    {
      hide MailboxesOk, Ingest;
      if enc.None? { return Fail; }
      if peers[from].windowSec != now {
        peers := peers[from := peers[from].(windowSec := now, windowOk := 0)];
      } else {
        peers := peers[from := peers[from]];
      }
      var p := peers[from];
      if p.windowOk >= PEER_RATE_PER_SEC { return Fail; }
      if enc.value in p.seen { return OkSeq(p.seen[enc.value]); }
      var r := IngestOuter(enc, plain);
      if r.Err? { return Fail; }
      var kept := if |p.seen| >= HPKE_ENC_WINDOW then map[] else p.seen;
      peers := peers[from := p.(windowOk := p.windowOk + 1, seen := kept[enc.value := r.value])];
      return OkSeq(r.value);
    }

    method Accept(from: Key, frame: Frame) returns (r: Reply<Payload>)
      requires Valid(View())
      modifies this
      ensures (View(), r) == AcceptFrame(old(View()), from, frame)
      ensures ownerNonces == old(ownerNonces)
    {
      hide MailboxesOk, HandleCiphertext;
      if from !in peers { return Err(NotPinned); }
      var p := peers[from];
      if p.refused { return Err(PeerRefused); }
      if frame.counter <= p.lastRx { return Ok(OkSeq(0)); }
      if frame.counter != p.lastRx + 1 { return Err(CounterGap); }
      peers := peers[from := p.(lastRx := frame.counter)];
      dirty := dirty.(peers := dirty.peers + {from});
      match frame.payload {
        case Malformed => return Err(Wire);
        case Hello(sender, receiver) =>
          if sender != from || receiver != serverId { return Err(HelloMismatch); }
          return Ok(Ciphertext(None, None));
        case Ciphertext(enc, plain) =>
          var reply := Handle(from, enc, plain);
          return Ok(reply);
        case _ => return Ok(frame.payload);
      }
    }

    method Reset(peer: Key)
      modifies this
      ensures View() == ResetLink(old(View()), peer)
      ensures ownerNonces == old(ownerNonces)
    {
      if peer in peers {
        peers := peers[peer := peers[peer].(lastRx := 0, nextTx := 1, helloDone := false)];
        dirty := dirty.(peers := dirty.peers + {peer});
      }
    }

    method EnqueueOuter(outer: Outer) returns (r: Reply<Option<nat>>)
      requires Valid(View())
      modifies this
      ensures View() == Enqueue(old(View()), outer)
      ensures ownerNonces == old(ownerNonces)
      ensures outer.dest != serverId ==> r == Ok(None)
      ensures outer.dest == serverId ==>
                var s := Ingest(old(View()), outer.enc, outer.plain).1;
                r == if s.Ok? then Ok(Some(s.value)) else Err(s.error)
    {
      if outer.dest == serverId {
        var s := IngestOuter(outer.enc, outer.plain);
        return if s.Ok? then Ok(Some(s.value)) else Err(s.error);
      }
      outbound := outbound + [OutboundRow(outer.dest, outer, now, now, 1)];
      dirty := dirty.(outbound := true);
      return Ok(None);
    }

    /** Push every queued row's next attempt back. */
    method Defer(until: nat)
      modifies this
      ensures View() == DeferOutbound(old(View()), until)
      ensures ownerNonces == old(ownerNonces)
    {
      var rows := [];
      for i := 0 to |outbound|
        invariant |rows| == i
        invariant forall j :: 0 <= j < i ==> rows[j] == outbound[j].(nextAttempt := until)
      {
        rows := rows + [outbound[i].(nextAttempt := until)];
      }
      if outbound != [] { dirty := dirty.(outbound := true); }
      outbound := rows;
    }
  }
}
