/**
 What the group host's operations do, told in bytes, seconds and credentials: for an append of every kind exactly when
 it succeeds, the row it leaves, who gets a copy, and what it changes besides; and the life of an invite from being
 stored to a live member.
 */
module GroupEffects {
  import opened Basics
  import opened GroupState
  import opened GroupLaws

  // ---------------------------------------------------------------------- appends

  /** The member presents the secret of a live credential. */
  predicate IsMember(h: Host, gid: Key, m: MemberCred) {
    && gid in h.groups && m.cid in h.groups[gid].creds
    && h.groups[gid].creds[m.cid].live && h.groups[gid].creds[m.cid].secret == m.digest
  }

  /** Bytes of the four attachment sizes: 256 KiB, 1 MiB, 4 MiB and 16 MiB. */
  function SlotSize(bucket: nat): nat {
    if bucket == 1 then 262144 else if bucket == 2 then 1048576 else if bucket == 3 then 4194304 else 16777216
  }

  /** Seconds a slot is kept: a minute, an hour, a day, or thirty days. */
  function SlotTime(ttl: nat): nat {
    if ttl == 1 then 60 else if ttl == 2 then 3600 else if ttl == 3 then 86400 else 2592000
  }

  /** The host lets this member append this object. */
  ghost predicate MayAppend(h: Host, gid: Key, m: MemberCred, kind: Kind, parsed: Parsed) {
    && IsMember(h, gid, m)
    && var key := h.groups[gid].creds[m.cid].signingPk;
       match kind
       case MlsHandshake => true
       case MlsApp => true
       case Revocation => true
       case RemoveBundle => parsed.RemoveMsg? && parsed.gid == gid && key.Some? && parsed.signedBy == key
       case SigningReplace => parsed.ReplaceMsg? && key.Some? && parsed.signedBy == key
       case Reserve =>
         && parsed.ReserveMsg? && 1 <= parsed.bucket <= 4 && parsed.ttl <= 3 && parsed.token !in h.files
         && LiveBytes(h.files, gid, h.now) + SlotSize(parsed.bucket) <= h.budget
       case OtherKind => false
  }

  /** The stream has room: 2 GiB in all. */
  predicate HasRoom(g: Group, body: Body) {
    g.bytes + body.len <= 2147483648
  }

  /** A copy can be sealed for every live credential. */
  predicate Sealable(g: Group, body: Body, bad: set<Key>) {
    forall c :: c in g.creds && g.creds[c].live && g.creds[c].fanout.Some? ==>
      body.len <= 16382 && g.creds[c].fanout.value.hpke !in bad
  }

  /** What an append leaves of the group, whether or not the copies could be made. */
  ghost predicate StreamAfter(g: Group, g': Group, row: StreamRow, stored: bool) {
    && g'.stream == (if stored then g.stream + [row] else g.stream)
    && g'.nextSeq == (if stored then g.nextSeq + 1 else g.nextSeq)
    && g'.bytes == (if stored then g.bytes + row.body.len else g.bytes)
    && g'.invites == g.invites && g'.pending == g.pending && g'.creator == g.creator
  }

  /** A key replacement is in force as soon as it is allowed; a removal only once all copies are made. */
  ghost predicate CredsAfter(g: Group, g': Group, m: MemberCred, kind: Kind, parsed: Parsed, allowed: bool, done: bool) {
    forall c :: Get(g'.creds, c)
                == if c !in g.creds then None
                   else if kind == SigningReplace && allowed && c == m.cid && parsed.ReplaceMsg?
                   then Some(Cred(g.creds[c].secret, g.creds[c].live, Some(parsed.newKey), g.creds[c].fanout))
                   else if kind == RemoveBundle && done && parsed.RemoveMsg? && c == parsed.named
                   then Some(Cred(g.creds[c].secret, false, g.creds[c].signingPk, None))
                   else Some(g.creds[c])
  }

  ghost predicate FilesAfter(h: Host, h': Host, gid: Key, m: MemberCred, kind: Kind, parsed: Parsed, done: bool) {
    if kind == Reserve && done && parsed.ReserveMsg?
    then h'.files == h.files[parsed.token := Slot(gid, m.cid, SlotSize(parsed.bucket),
                                                  Min(h.now + SlotTime(parsed.ttl), U64_MAX), None)]
    else h'.files == h.files
  }

  /** The other groups, the clock and the budget stay. */
  ghost predicate SameElsewhere(h: Host, h': Host, gid: Key) {
    && h'.now == h.now && h'.budget == h.budget
    && (forall x :: x != gid ==> Get(h'.groups, x) == Get(h.groups, x))
  }

  /** Exactly the live credentials that have a target get a copy. */
  ghost predicate CopiesAre(g: Group, copies: map<Key, Fanout>) {
    forall c :: Get(copies, c) == if c in g.creds && g.creds[c].live then g.creds[c].fanout else None
  }

  lemma FanoutLaw(h: Host, gid: Key, kind: Kind, body: Body, bad: set<Key>)
    requires gid in h.groups
    ensures var (h', r) := FanoutCopy(h, gid, kind, body, bad); var g := h.groups[gid];
            && gid in h'.groups && SameElsewhere(h, h', gid) && h'.files == h.files
            && StreamAfter(g, h'.groups[gid], StreamRow(g.nextSeq, kind, body, h.now), HasRoom(g, body))
            && h'.groups[gid].creds == g.creds
            && (r.Ok? <==> HasRoom(g, body) && Sealable(g, body, bad))
            && (r.Ok? ==> r.value.seqNo == g.nextSeq && CopiesAre(g, r.value.copies))
  {
    SealableIs(h.groups[gid], body, bad);
    TargetsAre(h.groups[gid]);
    hide Targets, Unsealable, Sealable;
  }

  lemma TargetsAre(g: Group)
    ensures CopiesAre(g, Targets(g))
  {
  }

  lemma SealableIs(g: Group, body: Body, bad: set<Key>)
    ensures Sealable(g, body, bad) <==> !exists c :: c in Targets(g) && Unsealable(body, Targets(g)[c], bad)
  {
    if !Sealable(g, body, bad) {
      var c :| c in g.creds && g.creds[c].live && g.creds[c].fanout.Some?
               && !(body.len <= 16382 && g.creds[c].fanout.value.hpke !in bad);
      assert c in Targets(g) && Unsealable(body, Targets(g)[c], bad);
    }
  }

  /** The whole law of an append, for every kind of object and every outcome. */
  ghost predicate AppendLaw(h: Host, gid: Key, m: MemberCred, kind: Kind, body: Body, parsed: Parsed, bad: set<Key>, h': Host, r: Reply<Appended>)
    requires gid in h.groups
  {
    var g := h.groups[gid];
    var allowed := MayAppend(h, gid, m, kind, parsed);
    var stored := allowed && HasRoom(g, body);
    var done := stored && Sealable(g, body, bad);
    && (r.Ok? <==> done)
    && (done ==> r.value.seqNo == g.nextSeq && CopiesAre(g, r.value.copies))
    && gid in h'.groups && SameElsewhere(h, h', gid)
    && StreamAfter(g, h'.groups[gid], StreamRow(g.nextSeq, kind, body, h.now), stored)
    && CredsAfter(g, h'.groups[gid], m, kind, parsed, allowed, done)
    && FilesAfter(h, h', gid, m, kind, parsed, done)
  }

  lemma PlainLaw(h: Host, gid: Key, m: MemberCred, kind: Kind, body: Body, parsed: Parsed, bad: set<Key>)
    requires gid in h.groups && (kind == MlsHandshake || kind == MlsApp || kind == Revocation || kind == OtherKind)
    ensures var (h', r) := Append(h, gid, m, kind, body, parsed, bad); AppendLaw(h, gid, m, kind, body, parsed, bad, h', r)
  {
    FanoutLaw(h, gid, kind, body, bad);
    hide FanoutCopy, Sealable, CopiesAre, HasRoom;
  }

  lemma RemoveLaw(h: Host, gid: Key, m: MemberCred, body: Body, parsed: Parsed, bad: set<Key>)
    requires gid in h.groups
    ensures var (h', r) := Append(h, gid, m, RemoveBundle, body, parsed, bad);
            AppendLaw(h, gid, m, RemoveBundle, body, parsed, bad, h', r)
  {
    FanoutLaw(h, gid, RemoveBundle, body, bad);
    hide FanoutCopy, Sealable, CopiesAre, HasRoom;
  }

  lemma ReplaceLaw(h: Host, gid: Key, m: MemberCred, body: Body, parsed: Parsed, bad: set<Key>)
    requires gid in h.groups
    ensures var (h', r) := Append(h, gid, m, SigningReplace, body, parsed, bad);
            AppendLaw(h, gid, m, SigningReplace, body, parsed, bad, h', r)
  {
    if MayAppend(h, gid, m, SigningReplace, parsed) {
      var h1 := SetCred(h, gid, m.cid, h.groups[gid].creds[m.cid].(signingPk := Some(parsed.newKey)));
      var h2 := h1.(dirty := MarkCred(h1.dirty, gid, m.cid));
      FanoutLaw(h2, gid, SigningReplace, body, bad);
      KeyIrrelevant(h.groups[gid], h2.groups[gid], m.cid, parsed.newKey, body, bad);
    }
    hide FanoutCopy, Sealable, CopiesAre;
  }

  /** Who gets copies does not depend on signing keys. */
  lemma KeyIrrelevant(g: Group, g': Group, cid: Key, key: Key, body: Body, bad: set<Key>)
    requires cid in g.creds && g'.creds == g.creds[cid := g.creds[cid].(signingPk := Some(key))]
    ensures Sealable(g', body, bad) <==> Sealable(g, body, bad)
    ensures forall copies :: CopiesAre(g', copies) ==> CopiesAre(g, copies)
  {
    forall c ensures c in g'.creds <==> c in g.creds {
    }
    assert forall c :: c in g.creds ==> g'.creds[c].live == g.creds[c].live && g'.creds[c].fanout == g.creds[c].fanout;
  }

  lemma ReserveLaw(h: Host, gid: Key, m: MemberCred, body: Body, parsed: Parsed, bad: set<Key>)
    requires gid in h.groups && h.budget < U64_MAX
    ensures var (h', r) := Append(h, gid, m, Reserve, body, parsed, bad);
            AppendLaw(h, gid, m, Reserve, body, parsed, bad, h', r)
  {
    FanoutLaw(h, gid, Reserve, body, bad);
    hide FanoutCopy, Sealable, CopiesAre, HasRoom, LiveBytes;
  }

  /**
   Appending, for every kind of object: it succeeds exactly if the member may append it, the stream has room and every
   copy can be sealed. The row is stored under the next number as soon as the first two hold, with the kind, body and
   time given; exactly the live credentials get a copy; a key replacement, a removal or a reservation changes that
   credential or that slot and nothing else; other groups are untouched.
   */
  lemma AppendExactly(h: Host, gid: Key, m: MemberCred, kind: Kind, body: Body, parsed: Parsed, bad: set<Key>)
    requires h.budget < U64_MAX
    ensures var (h', r) := Append(h, gid, m, kind, body, parsed, bad);
            if gid in h.groups then AppendLaw(h, gid, m, kind, body, parsed, bad, h', r) else h' == h && r == Err(Denied)
  {
    hide AppendLaw;
    if gid in h.groups {
      hide Append;
      match kind
      case RemoveBundle => RemoveLaw(h, gid, m, body, parsed, bad);
      case SigningReplace => ReplaceLaw(h, gid, m, body, parsed, bad);
      case Reserve => ReserveLaw(h, gid, m, body, parsed, bad);
      case _ => PlainLaw(h, gid, m, kind, body, parsed, bad);
    }
  }

  /** Objects the host makes itself are stored and copied the same way. */
  lemma HostRevocationExactly(h: Host, gid: Key, body: Body, bad: set<Key>)
    ensures var (h', r) := HostRevocation(h, gid, body, bad);
            if gid !in h.groups then h' == h && r == Err(Denied)
            else var g := h.groups[gid];
                 && (r.Ok? <==> HasRoom(g, body) && Sealable(g, body, bad))
                 && (r.Ok? ==> r.value.seqNo == g.nextSeq && CopiesAre(g, r.value.copies))
                 && gid in h'.groups && SameElsewhere(h, h', gid) && h'.files == h.files && h'.groups[gid].creds == g.creds
                 && StreamAfter(g, h'.groups[gid], StreamRow(g.nextSeq, Revocation, body, h.now), HasRoom(g, body))
  {
    if gid in h.groups { FanoutLaw(h, gid, Revocation, body, bad); }
  }
}
