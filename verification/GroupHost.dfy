/**
 The group host object. Each method updates the fields step by step, as the host does, and is proved to move the
 whole state exactly as the corresponding transition of `GroupState`.
 */
module GroupHosts {
  import opened Basics
  import opened GroupState
  import opened GroupLaws

  class GroupHost {
    var now: nat
    var groups: map<Key, Group>
    var files: map<Key, Slot>
    var fileBudget: nat
    var dirty: GroupDirty

    constructor (now: nat, fileBudget: nat)
      ensures View() == Host(now, map[], map[], fileBudget, CLEAN)
    {
      this.now, this.fileBudget := now, fileBudget;
      groups, files, dirty := map[], map[], CLEAN;
    }

    function View(): Host
      reads this
    {
      Host(now, groups, files, fileBudget, dirty)
    }

    method AuthorizeLive(gid: Key, m: MemberCred) returns (ok: bool)
      ensures ok <==> Authorized(View(), gid, m)
    {
      if gid !in groups || m.cid !in groups[gid].creds { return false; }
      var rec := groups[gid].creds[m.cid];
      return rec.live && rec.secret == m.digest;
    }

    /** How many groups this owner created. */
    method CountOwned(owner: Key) returns (n: nat)
      ensures n == |OwnedGroups(groups, owner)|
    {
      n := 0;
      var todo := groups.Keys;
      ghost var found: set<Key> := {};
      while todo != {}
        invariant todo <= groups.Keys && n == |found|
        invariant forall g :: g in found <==> g in groups && g !in todo && groups[g].creator == Some(owner)
        decreases todo
      {
        var g := Pick(todo);
        todo := todo - {g};
        if groups[g].creator == Some(owner) { n, found := n + 1, found + {g}; }
      }
      assert forall g :: g in found <==> g in OwnedGroups(groups, owner);
      assert found == OwnedGroups(groups, owner);
    }

    method CreateGroupFor(gid: Key, cid: Key, secret: Key, signingPk: Key, fanout: Fanout, creator: Option<Key>)
      returns (r: Reply<()>)
      modifies this
      ensures (View(), r) == Create(old(View()), gid, cid, secret, signingPk, fanout, creator)
    {
      if creator.Some? {
        var n := CountOwned(creator.value);
        if n >= GROUPS_PER_OWNER { return Err(Denied); }
      }
      var creds := map[cid := Cred(secret, true, Some(signingPk), Some(fanout))];
      groups := groups[gid := Group(1, creds, map[], map[], 0, [], creator)];
      dirty := dirty.(groups := dirty.groups + {gid});
      dirty := dirty.(creds := dirty.creds + {(gid, cid)});
      return Ok(());
    }

    method StoreSignedInvite(gid: Key, m: MemberCred, inv: InviteObject) returns (r: Reply<()>)
      modifies this
      ensures (View(), r) == StoreInvite(old(View()), gid, m, inv)
    {
      var live := AuthorizeLive(gid, m);
      if !live || inv.gid != gid { return Err(Denied); }
      var pk := groups[gid].creds[m.cid].signingPk;
      if pk.None? || inv.signedBy != pk { return Err(Denied); }
      var g := groups[gid];
      var row := Invite(SatAdd(now, inv.ttl), inv.binding, inv.salt);
      groups := groups[gid := g.(invites := g.invites[inv.nonce := row])];
      dirty := dirty.(invites := dirty.invites + {gid});
      return Ok(());
    }

    method AcceptInvite(gid: Key, nonce: Key, cid: Key, secret: Key, pid: Key) returns (r: Reply<()>)
      modifies this
      ensures (View(), r) == Accept(old(View()), gid, nonce, cid, secret, pid)
    {
      if gid !in groups || nonce !in groups[gid].invites { return Err(Denied); }
      var g := groups[gid];
      var stored := g.invites[nonce];
      g := g.(invites := g.invites - {nonce});
      groups := groups[gid := g];
      if now >= stored.expiresAt { return Err(Denied); }
      g := g.(creds := g.creds[cid := Cred(secret, false, None, None)]);
      g := g.(pending := g.pending[pid := Pending(cid, secret, stored.expiresAt, stored.binding, stored.salt)]);
      groups := groups[gid := g];
      assert groups == old(groups)[gid := g];
      dirty := dirty.(invites := dirty.invites + {gid}, pending := dirty.pending + {gid});
      dirty := dirty.(creds := dirty.creds + {(gid, cid)});
      return Ok(());
    }

    /** Drop expired pending joins and invites of one group. */
    method GcPending(gid: Key)
      requires gid in groups
      modifies this`groups
      ensures groups == old(groups)[gid := old(groups)[gid].(pending := UnexpiredPending(old(groups)[gid].pending, now),
                                                             invites := UnexpiredInvites(old(groups)[gid].invites, now))]
    {
      var g := groups[gid];
      var pending := RetainPending(g.pending, now);
      var invites := RetainInvites(g.invites, now);
      groups := groups[gid := g.(pending := pending, invites := invites)];
    }

    method AdmitJoiner(gid: Key, m: MemberCred, admit: AdmitObject, joinerPk: Key, fanout: Fanout) returns (r: Reply<Key>)
      modifies this
      ensures (View(), r) == Admit(old(View()), gid, m, admit, joinerPk, fanout)
    {
      hide UnexpiredInvites;
      var live := AuthorizeLive(gid, m);
      if !live || admit.gid != gid { return Err(Denied); }
      var pk := groups[gid].creds[m.cid].signingPk;
      if pk.None? || admit.signedBy != pk { return Err(Denied); }
      GcPending(gid);
      dirty := dirty.(invites := dirty.invites + {gid}, pending := dirty.pending + {gid});
      var g := groups[gid];
      if admit.pid !in g.pending { return Err(Denied); }
      var reserved := g.pending[admit.pid];
      g := g.(pending := g.pending - {admit.pid});
      groups := groups[gid := g];
      assert groups == old(groups)[gid := g];
      if now >= reserved.expiresAt { return Err(Denied); }
      if reserved.cid !in g.creds { return Err(Denied); }
      var rec := g.creds[reserved.cid].(live := true, signingPk := Some(joinerPk), fanout := Some(fanout));
      g := g.(creds := g.creds[reserved.cid := rec]);
      groups := groups[gid := g];
      assert groups == old(groups)[gid := g];
      dirty := dirty.(creds := dirty.creds + {(gid, reserved.cid)});
      return Ok(reserved.cid);
    }

    method Refresh(gid: Key, m: MemberCred, fanout: Fanout) returns (r: Reply<()>)
      modifies this
      ensures (View(), r) == RefreshFanout(old(View()), gid, m, fanout)
    {
      var live := AuthorizeLive(gid, m);
      if !live { return Err(Denied); }
      var g := groups[gid];
      groups := groups[gid := g.(creds := g.creds[m.cid := g.creds[m.cid].(fanout := Some(fanout))])];
      dirty := dirty.(creds := dirty.creds + {(gid, m.cid)});
      return Ok(());
    }

    /** Store the row, gather the live targets, and seal one copy for each, stopping at the first failure. */
    method Fan(gid: Key, kind: Kind, body: Body, bad: set<Key>) returns (r: Reply<Appended>)
      modifies this`groups, this`dirty
      ensures (View(), r) == FanoutCopy(old(View()), gid, kind, body, bad)
    {
      hide Targets, Unsealable;
      if gid !in groups || SatAdd(groups[gid].bytes, body.len) > STREAM_MAX_BYTES { return Err(Denied); }
      var g := groups[gid];
      var s := g.nextSeq;
      groups := groups[gid := g.(nextSeq := s + 1, bytes := SatAdd(g.bytes, body.len),
                                 stream := g.stream + [StreamRow(s, kind, body, now)])];
      dirty := dirty.(groups := dirty.groups + {gid}, streamNew := dirty.streamNew + [(gid, s)]);
      var targets := LiveTargets(g);
      var sealed := SealAll(body, targets, bad);
      return if sealed then Ok(Appended(s, targets)) else Err(Wire);
    }

    method AppendRevocation(gid: Key, body: Body, bad: set<Key>) returns (r: Reply<Appended>)
      modifies this
      ensures (View(), r) == HostRevocation(old(View()), gid, body, bad)
    {
      if gid !in groups { return Err(Denied); }
      r := Fan(gid, Revocation, body, bad);
    }

    method AppendRemoval(gid: Key, m: MemberCred, body: Body, parsed: Parsed, bad: set<Key>) returns (r: Reply<Appended>)
      modifies this
      ensures (View(), r) == AppendRemove(old(View()), gid, m, body, parsed, bad)
    {
      hide FanoutCopy;
      if !parsed.RemoveMsg? { return Err(Wire); }
      if gid !in groups || m.cid !in groups[gid].creds || groups[gid].creds[m.cid].signingPk.None? { return Err(Denied); }
      if parsed.signedBy != groups[gid].creds[m.cid].signingPk || parsed.gid != gid { return Err(Wire); }
      r := Fan(gid, RemoveBundle, body, bad);
      if r.Err? { return; }
      if gid in groups && parsed.named in groups[gid].creds {
        var g := groups[gid];
        groups := groups[gid := g.(creds := g.creds[parsed.named := g.creds[parsed.named].(live := false, fanout := None)])];
      }
      dirty := dirty.(creds := dirty.creds + {(gid, parsed.named)});
    }

    method AppendKeyReplace(gid: Key, m: MemberCred, body: Body, parsed: Parsed, bad: set<Key>) returns (r: Reply<Appended>)
      modifies this
      ensures (View(), r) == AppendReplace(old(View()), gid, m, body, parsed, bad)
    {
      hide FanoutCopy;
      if !parsed.ReplaceMsg? { return Err(Wire); }
      if gid !in groups || m.cid !in groups[gid].creds || groups[gid].creds[m.cid].signingPk.None? { return Err(Denied); }
      if parsed.signedBy != groups[gid].creds[m.cid].signingPk { return Err(Wire); }
      var g := groups[gid];
      groups := groups[gid := g.(creds := g.creds[m.cid := g.creds[m.cid].(signingPk := Some(parsed.newKey))])];
      dirty := dirty.(creds := dirty.creds + {(gid, m.cid)});
      r := Fan(gid, SigningReplace, body, bad);
    }

    /** Unexpired reserved bytes of one group. */
    method LiveFileBytes(gid: Key) returns (n: nat)
      ensures n == LiveBytes(files, gid, now)
    {
      n := 0;
      var todo := files.Keys;
      ghost var rest := files;
      while todo != {}
        invariant rest.Keys == todo && todo <= files.Keys && forall t :: t in rest ==> rest[t] == files[t]
        invariant LiveBytes(files, gid, now) == n + LiveBytes(rest, gid, now)
        decreases todo
      {
        var t := Pick(todo);
        LiveBytesRemove(rest, gid, now, t);
        if files[t].gid == gid && now < files[t].expiresAt { n := n + files[t].size; }
        todo, rest := todo - {t}, rest - {t};
      }
    }

    method AppendReservation(gid: Key, m: MemberCred, body: Body, parsed: Parsed, bad: set<Key>) returns (r: Reply<Appended>)
      modifies this
      ensures (View(), r) == AppendReserve(old(View()), gid, m, body, parsed, bad)
    {
      hide FanoutCopy;
      if !parsed.ReserveMsg? || BucketLen(parsed.bucket).None? || parsed.ttl > 3 { return Err(Wire); }
      if parsed.token in files { return Err(Denied); }
      var size := BucketLen(parsed.bucket).value;
      var held := LiveFileBytes(gid);
      if SatAdd(held, size) > fileBudget { return Err(Denied); }
      var expiresAt := SlotExpiry(now, parsed.ttl);
      r := Fan(gid, Reserve, body, bad);
      if r.Err? { return; }
      files := files[parsed.token := Slot(gid, m.cid, size, expiresAt, None)];
      dirty := dirty.(files := dirty.files + {parsed.token});
    }

    method AppendObject(gid: Key, m: MemberCred, kind: Kind, body: Body, parsed: Parsed, bad: set<Key>)
      returns (r: Reply<Appended>)
      modifies this
      ensures (View(), r) == Append(old(View()), gid, m, kind, body, parsed, bad)
    {
      hide FanoutCopy, AppendRemove, AppendReplace, AppendReserve;
      var live := AuthorizeLive(gid, m);
      if !live { return Err(Denied); }
      match kind {
        case RemoveBundle => r := AppendRemoval(gid, m, body, parsed, bad);
        case SigningReplace => r := AppendKeyReplace(gid, m, body, parsed, bad);
        case Reserve => r := AppendReservation(gid, m, body, parsed, bad);
        case OtherKind => return Err(Denied);
        case _ => r := Fan(gid, kind, body, bad);
      }
    }

    method UploadFile(gid: Key, m: MemberCred, token: Key, body: Body) returns (r: Reply<()>)
      modifies this
      ensures (View(), r) == Upload(old(View()), gid, m, token, body)
    {
      var live := AuthorizeLive(gid, m);
      if !live || token !in files { return Err(Denied); }
      var slot := files[token];
      if slot.gid != gid || slot.owner != m.cid || now >= slot.expiresAt { return Err(Denied); }
      if slot.bytes.Some? || body.len != slot.size { return Err(Denied); }
      files := files[token := slot.(bytes := Some(body))];
      dirty := dirty.(files := dirty.files + {token});
      return Ok(());
    }
  }

  method RetainPending(p: map<Key, Pending>, now: nat) returns (r: map<Key, Pending>)
    ensures r == UnexpiredPending(p, now)
  {
    r := p;
    var todo := p.Keys;
    while todo != {}
      invariant todo <= p.Keys
      invariant forall k :: Get(r, k) == if k in p && (k in todo || p[k].expiresAt > now) then Some(p[k]) else None
      decreases todo
    {
      var k := Pick(todo);
      todo := todo - {k};
      if p[k].expiresAt <= now { r := r - {k}; }
    }
    forall k ensures Get(r, k) == Get(UnexpiredPending(p, now), k) {
    }
    SameLookups(r, UnexpiredPending(p, now));
  }

  method RetainInvites(p: map<Key, Invite>, now: nat) returns (r: map<Key, Invite>)
    ensures r == UnexpiredInvites(p, now)
  {
    r := p;
    var todo := p.Keys;
    while todo != {}
      invariant todo <= p.Keys
      invariant forall k :: Get(r, k) == if k in p && (k in todo || p[k].expiresAt > now) then Some(p[k]) else None
      decreases todo
    {
      var k := Pick(todo);
      todo := todo - {k};
      if p[k].expiresAt <= now { r := r - {k}; }
    }
    forall k ensures Get(r, k) == Get(UnexpiredInvites(p, now), k) {
    }
    SameLookups(r, UnexpiredInvites(p, now));
  }

  /** The fan-out targets of the live credentials. */
  method LiveTargets(g: Group) returns (r: map<Key, Fanout>)
    ensures r == Targets(g)
  {
    r := map[];
    var todo := g.creds.Keys;
    while todo != {}
      invariant todo <= g.creds.Keys
      invariant forall c :: Get(r, c) == if c in todo then None else Get(Targets(g), c)
      decreases todo
    {
      var c := Pick(todo);
      todo := todo - {c};
      var rec := g.creds[c];
      if rec.live && rec.fanout.Some? { r := r[c := rec.fanout.value]; }
    }
    forall c ensures Get(r, c) == Get(Targets(g), c) {
    }
    SameLookups(r, Targets(g));
  }

  /** Seal a copy for every target; stop at the first that cannot be sealed. */
  method SealAll(body: Body, targets: map<Key, Fanout>, bad: set<Key>) returns (ok: bool)
    ensures ok <==> !exists c :: c in targets && Unsealable(body, targets[c], bad)
  {
    var todo := targets.Keys;
    while todo != {}
      invariant todo <= targets.Keys
      invariant forall c :: c in targets && c !in todo ==> !Unsealable(body, targets[c], bad)
      decreases todo
    {
      var c := Pick(todo);
      todo := todo - {c};
      if Unsealable(body, targets[c], bad) { return false; }
    }
    return true;
  }
}
