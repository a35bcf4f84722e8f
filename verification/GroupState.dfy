/**
 The group stream host as a value: credentials, invites, pending joins, the stream, file slots, and each host
 operation as a function. A signature is represented by the key it verifies under.
 */
module GroupState {
  import opened Basics
  import HomeState

  type Reply<T> = HomeState.Reply<T>

  const STREAM_MAX_BYTES: nat := 2 * 1024 * 1024 * 1024
  const STREAM_MAX_AGE_SECS: nat := 30 * 24 * 3600
  const GROUPS_PER_OWNER: nat := 64
  const TEXT_BUCKET_MAX: nat := 16384

  // ----------------------------------------------------------------------- data

  datatype Fanout = Fanout(capability: Key, hpke: Key)

  datatype Cred = Cred(secret: Key, live: bool, signingPk: Option<Key>, fanout: Option<Fanout>)

  datatype Invite = Invite(expiresAt: nat, binding: Option<Key>, salt: Option<Key>)

  datatype Pending = Pending(cid: Key, secret: Key, expiresAt: nat, binding: Option<Key>, salt: Option<Key>)

  datatype Body = Body(content: Blob, len: nat)

  datatype Kind = MlsHandshake | MlsApp | Revocation | RemoveBundle | SigningReplace | Reserve | OtherKind

  datatype StreamRow = StreamRow(seqNo: nat, kind: Kind, body: Body, receivedAt: nat)

  datatype Group = Group(
    nextSeq: nat, creds: map<Key, Cred>, invites: map<Key, Invite>, pending: map<Key, Pending>,
    bytes: nat, stream: seq<StreamRow>, creator: Option<Key>)

  datatype Slot = Slot(gid: Key, owner: Key, size: nat, expiresAt: nat, bytes: Option<Body>)

  datatype GroupDirty = GroupDirty(
    groups: set<Key>, creds: set<(Key, Key)>, invites: set<Key>, pending: set<Key>,
    streamNew: seq<(Key, nat)>, files: set<Key>)

  const CLEAN := GroupDirty({}, {}, {}, {}, [], {})

  function Absorb(d: GroupDirty, o: GroupDirty): GroupDirty {
    GroupDirty(d.groups + o.groups, d.creds + o.creds, d.invites + o.invites, d.pending + o.pending,
               d.streamNew + o.streamNew, d.files + o.files)
  }

  datatype Host = Host(
    now: nat, groups: map<Key, Group>, files: map<Key, Slot>, budget: nat, dirty: GroupDirty)

  // A presented credential: its id and the digest of the presented secret.
  datatype MemberCred = MemberCred(cid: Key, digest: Key)

  // Signed objects carry the key their signature verifies under, if any.
  datatype InviteObject = InviteObject(gid: Key, nonce: Key, ttl: nat, binding: Option<Key>, salt: Option<Key>, signedBy: Option<Key>)

  datatype AdmitObject = AdmitObject(gid: Key, pid: Key, signedBy: Option<Key>)

  // How a stream body parses. A sidecar is bound to one group.
  datatype Parsed =
    | RemoveMsg(named: Key, gid: Key, signedBy: Option<Key>)
    | ReplaceMsg(newKey: Key, signedBy: Option<Key>)
    | ReserveMsg(token: Key, bucket: nat, ttl: nat)
    | Opaque

  // The row's number, and a sealed copy for each of these credentials' targets.
  datatype Appended = Appended(seqNo: nat, copies: map<Key, Fanout>)

  // -------------------------------------------------------------------- lookups

  predicate Authorized(h: Host, gid: Key, m: MemberCred) {
    && gid in h.groups
    && m.cid in h.groups[gid].creds
    && h.groups[gid].creds[m.cid].live
    && h.groups[gid].creds[m.cid].secret == m.digest
  }

  function SigningPk(h: Host, gid: Key, cid: Key): Option<Key> {
    if gid in h.groups && cid in h.groups[gid].creds then h.groups[gid].creds[cid].signingPk else None
  }

  /** The signature verifies under the credential's current signing key. */
  predicate SignedBy(h: Host, gid: Key, cid: Key, signedBy: Option<Key>) {
    SigningPk(h, gid, cid).Some? && signedBy == SigningPk(h, gid, cid)
  }

  function BucketLen(bucket: nat): Option<nat> {
    match bucket
    case 1 => Some(262144)
    case 2 => Some(1048576)
    case 3 => Some(4194304)
    case 4 => Some(16777216)
    case _ => None
  }

  /** Credentials a stream object is copied to. */
  function Targets(g: Group): map<Key, Fanout> {
    map c | c in g.creds && g.creds[c].live && g.creds[c].fanout.Some? :: g.creds[c].fanout.value
  }

  /** A copy cannot be made: the body fits no bucket, or sealing to this server key fails. */
  predicate Unsealable(body: Body, target: Fanout, bad: set<Key>) {
    2 + body.len > TEXT_BUCKET_MAX || target.hpke in bad
  }

  predicate LiveSlot(s: Slot, gid: Key, now: nat) {
    s.gid == gid && now < s.expiresAt
  }

  /** Bytes reserved and not expired for one group. */
  ghost function LiveBytes(files: map<Key, Slot>, gid: Key, now: nat): nat
    decreases |files|
  {
    if files.Keys == {} then 0
    else
      var t := Member(files.Keys);
      (if LiveSlot(files[t], gid, now) then files[t].size else 0) + LiveBytes(files - {t}, gid, now)
  }

  /** Groups created by one owner. */
  function OwnedGroups(groups: map<Key, Group>, owner: Key): set<Key> {
    set gid | gid in groups && groups[gid].creator == Some(owner)
  }

  // ----------------------------------------------------------------- operations

  function PutGroup(h: Host, gid: Key, g: Group, dirty: GroupDirty): Host {
    h.(groups := h.groups[gid := g], dirty := dirty)
  }

  function MarkCred(d: GroupDirty, gid: Key, cid: Key): GroupDirty {
    d.(creds := d.creds + {(gid, cid)})
  }

  function Create(h: Host, gid: Key, cid: Key, secret: Key, signingPk: Key, fanout: Fanout, creator: Option<Key>)
    : (Host, Reply<()>)
  {
    if creator.Some? && |OwnedGroups(h.groups, creator.value)| >= GROUPS_PER_OWNER then (h, Err(Denied))
    else
      var g := Group(1, map[cid := Cred(secret, true, Some(signingPk), Some(fanout))], map[], map[], 0, [], creator);
      (PutGroup(h, gid, g, MarkCred(h.dirty.(groups := h.dirty.groups + {gid}), gid, cid)), Ok(()))
  }

  function StoreInvite(h: Host, gid: Key, m: MemberCred, inv: InviteObject): (Host, Reply<()>) {
    if !Authorized(h, gid, m) || inv.gid != gid || !SignedBy(h, gid, m.cid, inv.signedBy) then (h, Err(Denied))
    else
      var g := h.groups[gid];
      var row := Invite(SatAdd(h.now, inv.ttl), inv.binding, inv.salt);
      (PutGroup(h, gid, g.(invites := g.invites[inv.nonce := row]), h.dirty.(invites := h.dirty.invites + {gid})), Ok(()))
  }

  /** Redeem an invite once. An expired one leaves memory too, but before anything is journalled. */
  function Accept(h: Host, gid: Key, nonce: Key, cid: Key, secret: Key, pid: Key): (Host, Reply<()>) {
    if gid !in h.groups || nonce !in h.groups[gid].invites then (h, Err(Denied))
    else
      var g := h.groups[gid];
      var inv := g.invites[nonce];
      var g1 := g.(invites := g.invites - {nonce});
      if h.now >= inv.expiresAt then (h.(groups := h.groups[gid := g1]), Err(Denied))
      else
        var g2 := g1.(creds := g.creds[cid := Cred(secret, false, None, None)],
                      pending := g.pending[pid := Pending(cid, secret, inv.expiresAt, inv.binding, inv.salt)]);
        var d := h.dirty.(invites := h.dirty.invites + {gid}, pending := h.dirty.pending + {gid});
        (PutGroup(h, gid, g2, MarkCred(d, gid, cid)), Ok(()))
  }

  function UnexpiredPending(p: map<Key, Pending>, now: nat): map<Key, Pending> {
    map k | k in p && p[k].expiresAt > now :: p[k]
  }

  function UnexpiredInvites(p: map<Key, Invite>, now: nat): map<Key, Invite> {
    map k | k in p && p[k].expiresAt > now :: p[k]
  }

  function Admit(h: Host, gid: Key, m: MemberCred, admit: AdmitObject, joinerPk: Key, fanout: Fanout)
    : (Host, Reply<Key>)
  {
    if !Authorized(h, gid, m) || admit.gid != gid || !SignedBy(h, gid, m.cid, admit.signedBy) then (h, Err(Denied))
    else
      var g := h.groups[gid];
      var g1 := g.(pending := UnexpiredPending(g.pending, h.now), invites := UnexpiredInvites(g.invites, h.now));
      var d := h.dirty.(invites := h.dirty.invites + {gid}, pending := h.dirty.pending + {gid});
      if admit.pid !in g1.pending then (PutGroup(h, gid, g1, d), Err(Denied))
      else
        var p := g1.pending[admit.pid];
        var g2 := g1.(pending := g1.pending - {admit.pid});
        if p.cid !in g2.creds then (PutGroup(h, gid, g2, d), Err(Denied))
        else
          var c := g2.creds[p.cid].(live := true, signingPk := Some(joinerPk), fanout := Some(fanout));
          (PutGroup(h, gid, g2.(creds := g2.creds[p.cid := c]), MarkCred(d, gid, p.cid)), Ok(p.cid))
  }

  function RefreshFanout(h: Host, gid: Key, m: MemberCred, fanout: Fanout): (Host, Reply<()>) {
    if !Authorized(h, gid, m) then (h, Err(Denied))
    else
      var g := h.groups[gid];
      var c := g.creds[m.cid].(fanout := Some(fanout));
      (PutGroup(h, gid, g.(creds := g.creds[m.cid := c]), MarkCred(h.dirty, gid, m.cid)), Ok(()))
  }

  /** Store a stream object and copy it to every live credential; the row stays even if a copy cannot be made. */
  function FanoutCopy(h: Host, gid: Key, kind: Kind, body: Body, bad: set<Key>): (Host, Reply<Appended>) {
    if gid !in h.groups || SatAdd(h.groups[gid].bytes, body.len) > STREAM_MAX_BYTES then (h, Err(Denied))
    else
      var g := h.groups[gid];
      var g1 := g.(nextSeq := g.nextSeq + 1, bytes := SatAdd(g.bytes, body.len),
                   stream := g.stream + [StreamRow(g.nextSeq, kind, body, h.now)]);
      var d := h.dirty.(groups := h.dirty.groups + {gid}, streamNew := h.dirty.streamNew + [(gid, g.nextSeq)]);
      (PutGroup(h, gid, g1, d),
       if exists c :: c in Targets(g) && Unsealable(body, Targets(g)[c], bad) then Err(Wire)
       else Ok(Appended(g.nextSeq, Targets(g))))
  }

  function HostRevocation(h: Host, gid: Key, body: Body, bad: set<Key>): (Host, Reply<Appended>) {
    FanoutCopy(h, gid, Revocation, body, bad)
  }

  function SetCred(h: Host, gid: Key, cid: Key, c: Cred): Host
    requires gid in h.groups
  {
    h.(groups := h.groups[gid := h.groups[gid].(creds := h.groups[gid].creds[cid := c])])
  }

  /** Fan out to everyone live, the named credential included, and only then revoke it. */
  function AppendRemove(h: Host, gid: Key, m: MemberCred, body: Body, parsed: Parsed, bad: set<Key>)
    : (Host, Reply<Appended>)
  {
    if !parsed.RemoveMsg? then (h, Err(Wire))
    else if SigningPk(h, gid, m.cid).None? then (h, Err(Denied))
    else if !SignedBy(h, gid, m.cid, parsed.signedBy) || parsed.gid != gid then (h, Err(Wire))
    else match FanoutCopy(h, gid, RemoveBundle, body, bad)
         case (h1, Err(e)) => (h1, Err(e))
         case (h1, Ok(out)) =>
           var h2 := if gid in h1.groups && parsed.named in h1.groups[gid].creds
                     then SetCred(h1, gid, parsed.named,
                                  h1.groups[gid].creds[parsed.named].(live := false, fanout := None))
                     else h1;
           (h2.(dirty := MarkCred(h2.dirty, gid, parsed.named)), Ok(out))
  }

  function AppendReplace(h: Host, gid: Key, m: MemberCred, body: Body, parsed: Parsed, bad: set<Key>)
    : (Host, Reply<Appended>)
  {
    if !parsed.ReplaceMsg? then (h, Err(Wire))
    else if SigningPk(h, gid, m.cid).None? then (h, Err(Denied))
    else if !SignedBy(h, gid, m.cid, parsed.signedBy) then (h, Err(Wire))
    else
      var c := h.groups[gid].creds[m.cid].(signingPk := Some(parsed.newKey));
      var h1 := SetCred(h, gid, m.cid, c);
      FanoutCopy(h1.(dirty := MarkCred(h1.dirty, gid, m.cid)), gid, SigningReplace, body, bad)
  }

  function SlotExpiry(now: nat, ttl: nat): nat {
    match HomeState.TtlSecs(ttl)
    case Some(s) => SatAdd(now, s)
    case None => SatAdd(now, STREAM_MAX_AGE_SECS)
  }

  ghost function AppendReserve(h: Host, gid: Key, m: MemberCred, body: Body, parsed: Parsed, bad: set<Key>)
    : (Host, Reply<Appended>)
  {
    if !parsed.ReserveMsg? || BucketLen(parsed.bucket).None? || parsed.ttl > 3 then (h, Err(Wire))
    else if parsed.token in h.files then (h, Err(Denied))
    else
      var size := BucketLen(parsed.bucket).value;
      if SatAdd(LiveBytes(h.files, gid, h.now), size) > h.budget then (h, Err(Denied))
      else match FanoutCopy(h, gid, Reserve, body, bad)
           case (h1, Err(e)) => (h1, Err(e))
           case (h1, Ok(out)) =>
             (h1.(files := h1.files[parsed.token := Slot(gid, m.cid, size, SlotExpiry(h.now, parsed.ttl), None)],
                  dirty := h1.dirty.(files := h1.dirty.files + {parsed.token})), Ok(out))
  }

  ghost function Append(h: Host, gid: Key, m: MemberCred, kind: Kind, body: Body, parsed: Parsed, bad: set<Key>)
    : (Host, Reply<Appended>)
  {
    if !Authorized(h, gid, m) then (h, Err(Denied))
    else match kind
         case RemoveBundle => AppendRemove(h, gid, m, body, parsed, bad)
         case SigningReplace => AppendReplace(h, gid, m, body, parsed, bad)
         case Reserve => AppendReserve(h, gid, m, body, parsed, bad)
         case OtherKind => (h, Err(Denied))
         case _ => FanoutCopy(h, gid, kind, body, bad)
  }

  function Upload(h: Host, gid: Key, m: MemberCred, token: Key, body: Body): (Host, Reply<()>) {
    if !Authorized(h, gid, m) || token !in h.files then (h, Err(Denied))
    else
      var s := h.files[token];
      if s.gid != gid || s.owner != m.cid || h.now >= s.expiresAt then (h, Err(Denied))
      else if s.bytes.Some? || body.len != s.size then (h, Err(Denied))
      else (h.(files := h.files[token := s.(bytes := Some(body))],
               dirty := h.dirty.(files := h.dirty.files + {token})), Ok(()))
  }

  function FetchFile(h: Host, gid: Key, m: MemberCred, token: Key): Reply<Body> {
    if !Authorized(h, gid, m) || token !in h.files then Err(Denied)
    else
      var s := h.files[token];
      if s.gid == gid && h.now < s.expiresAt && s.bytes.Some? then Ok(s.bytes.value) else Err(Denied)
  }

  // ----------------------------------------------------------------------- runs

  datatype Op =
    | OpTick(time: nat)
    | OpCreate(gid: Key, cid: Key, secret: Key, signingPk: Key, fanout: Fanout, creator: Option<Key>)
    | OpStoreInvite(gid: Key, m: MemberCred, inv: InviteObject)
    | OpAccept(gid: Key, nonce: Key, cid: Key, secret: Key, pid: Key)
    | OpAdmit(gid: Key, m: MemberCred, admit: AdmitObject, joinerPk: Key, fanout: Fanout)
    | OpRefreshFanout(gid: Key, m: MemberCred, fanout: Fanout)
    | OpHostRevocation(gid: Key, body: Body, bad: set<Key>)
    | OpAppend(gid: Key, m: MemberCred, kind: Kind, body: Body, parsed: Parsed, bad: set<Key>)
    | OpUpload(gid: Key, m: MemberCred, token: Key, body: Body)

  ghost function Step(h: Host, op: Op): Host {
    match op
    case OpTick(time) => h.(now := time)
    case OpCreate(gid, cid, secret, pk, fanout, creator) => Create(h, gid, cid, secret, pk, fanout, creator).0
    case OpStoreInvite(gid, m, inv) => StoreInvite(h, gid, m, inv).0
    case OpAccept(gid, nonce, cid, secret, pid) => Accept(h, gid, nonce, cid, secret, pid).0
    case OpAdmit(gid, m, admit, pk, fanout) => Admit(h, gid, m, admit, pk, fanout).0
    case OpRefreshFanout(gid, m, fanout) => RefreshFanout(h, gid, m, fanout).0
    case OpHostRevocation(gid, body, bad) => HostRevocation(h, gid, body, bad).0
    case OpAppend(gid, m, kind, body, parsed, bad) => Append(h, gid, m, kind, body, parsed, bad).0
    case OpUpload(gid, m, token, body) => Upload(h, gid, m, token, body).0
  }

  /** The clock does not run backwards, and the host's randomly minted ids are new. */
  predicate Admissible(h: Host, op: Op) {
    match op
    case OpTick(time) => h.now <= time
    case OpCreate(gid, _, _, _, _, _) => gid !in h.groups
    case OpAccept(gid, _, cid, _, pid) =>
      gid in h.groups ==> cid !in h.groups[gid].creds && pid !in h.groups[gid].pending
    case _ => true
  }
}
