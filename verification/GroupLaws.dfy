/**
 What every run of the group host keeps: the credential life cycle, one-shot invites, a dense append-only stream
 within its cap, and write-once file slots within the budget.
 */
module GroupLaws {
  import opened Basics
  import opened GroupState

  // ---------------------------------------------------------------- invariants

  predicate IsReserved(c: Cred) { !c.live && c.signingPk.None? }

  predicate IsDead(c: Cred) { !c.live && c.signingPk.Some? }

  /** Live exactly when there is a fan-out target, and then with a signing key. */
  predicate CredOk(c: Cred) {
    (c.live <==> c.fanout.Some?) && (c.live ==> c.signingPk.Some?)
  }

  /** A pending join names a credential that was never live, and no other pending join names it. */
  ghost predicate PendingOk(creds: map<Key, Cred>, pending: map<Key, Pending>) {
    && (forall p :: p in pending ==> pending[p].cid in creds && IsReserved(creds[pending[p].cid]))
    && (forall p, q :: p in pending && q in pending && pending[p].cid == pending[q].cid ==> p == q)
  }

  ghost predicate CredsOk(creds: map<Key, Cred>) {
    forall c :: c in creds ==> CredOk(creds[c])
  }

  function BodyBytes(stream: seq<StreamRow>): nat {
    if stream == [] then 0 else BodyBytes(stream[..|stream| - 1]) + stream[|stream| - 1].body.len
  }

  /** Numbered 1..n without gaps, the counter one past, and the byte count exact and within the cap. */
  ghost predicate StreamOk(g: Group) {
    && (forall i :: 0 <= i < |g.stream| ==> g.stream[i].seqNo == i + 1)
    && g.nextSeq == |g.stream| + 1
    && g.bytes == BodyBytes(g.stream) <= STREAM_MAX_BYTES
  }

  ghost predicate GroupOk(g: Group) {
    CredsOk(g.creds) && PendingOk(g.creds, g.pending) && StreamOk(g)
  }

  ghost predicate GroupsOk(groups: map<Key, Group>) {
    forall gid :: gid in groups ==> GroupOk(groups[gid])
  }

  ghost predicate FilesOk(files: map<Key, Slot>) {
    forall t :: t in files && files[t].bytes.Some? ==> files[t].bytes.value.len == files[t].size
  }

  /** Unexpired reservations of every group fit the budget. */
  ghost predicate BudgetOk(h: Host) {
    forall gid :: LiveBytes(h.files, gid, h.now) <= h.budget
  }

  ghost predicate HostOk(h: Host) {
    GroupsOk(h.groups) && FilesOk(h.files) && BudgetOk(h)
  }

  // ------------------------------------------------------------------ movement

  /** The life of one credential: reserved, then live, then dead for good. */
  predicate CredMoves(c: Cred, c': Cred) {
    && c'.secret == c.secret
    && (IsDead(c) ==> c' == c)
    && (c.live ==> c'.live || IsDead(c'))
    && (IsReserved(c) ==> c' == c || !IsReserved(c'))
  }

  ghost predicate CredsMove(a: map<Key, Cred>, b: map<Key, Cred>) {
    forall c :: c in a ==> c in b && CredMoves(a[c], b[c])
  }

  ghost predicate GroupMoves(g: Group, g': Group) {
    g'.creator == g.creator && CredsMove(g.creds, g'.creds) && g.stream <= g'.stream
  }

  /** A slot keeps its reservation, and the first upload is the last. */
  predicate SlotMoves(s: Slot, s': Slot) {
    s' == s.(bytes := s'.bytes) && (s.bytes.Some? ==> s' == s)
  }

  ghost predicate HostMoves(h: Host, h': Host) {
    && h.now <= h'.now && h'.budget == h.budget
    && (forall gid :: gid in h.groups ==> gid in h'.groups && GroupMoves(h.groups[gid], h'.groups[gid]))
    && (forall t :: t in h.files ==> t in h'.files && SlotMoves(h.files[t], h'.files[t]))
  }

  ghost predicate Sound(h: Host, h': Host) {
    HostOk(h') && HostMoves(h, h')
  }

  /** Only one group changes, and it changes soundly. */
  lemma PutSound(h: Host, gid: Key, g: Group, d: GroupDirty)
    requires HostOk(h) && GroupOk(g) && (gid in h.groups ==> GroupMoves(h.groups[gid], g))
    ensures Sound(h, PutGroup(h, gid, g, d))
  {
    hide GroupOk, GroupMoves, FilesOk;
    var h' := PutGroup(h, gid, g, d);
    assert h'.files == h.files && h'.now == h.now && h'.budget == h.budget;
    SameGroupMoves(h);
  }

  lemma SameGroupMoves(h: Host)
    ensures forall gid :: gid in h.groups ==> GroupMoves(h.groups[gid], h.groups[gid])
  {
  }

  lemma SelfSound(h: Host)
    requires HostOk(h)
    ensures Sound(h, h)
  {
    hide HostOk, GroupMoves;
    SameGroupMoves(h);
  }

  // ---------------------------------------------------------------- each operation

  lemma CreateSound(h: Host, gid: Key, cid: Key, secret: Key, pk: Key, fanout: Fanout, creator: Option<Key>)
    requires HostOk(h) && gid !in h.groups
    ensures Sound(h, Create(h, gid, cid, secret, pk, fanout, creator).0)
  {
    SelfSound(h);
    var g := Group(1, map[cid := Cred(secret, true, Some(pk), Some(fanout))], map[], map[], 0, [], creator);
    assert GroupOk(g);
    PutSound(h, gid, g, MarkCred(h.dirty.(groups := h.dirty.groups + {gid}), gid, cid));
  }

  lemma StoreInviteSound(h: Host, gid: Key, m: MemberCred, inv: InviteObject)
    requires HostOk(h)
    ensures Sound(h, StoreInvite(h, gid, m, inv).0)
  {
    SelfSound(h);
    var (h', r) := StoreInvite(h, gid, m, inv);
    if r.Ok? {
      assert GroupOk(h.groups[gid]);
      hide HostOk;
      PutSound(h, gid, h'.groups[gid], h'.dirty);
    }
  }

  lemma AcceptSound(h: Host, gid: Key, nonce: Key, cid: Key, secret: Key, pid: Key)
    requires HostOk(h) && Admissible(h, OpAccept(gid, nonce, cid, secret, pid))
    ensures Sound(h, Accept(h, gid, nonce, cid, secret, pid).0)
  {
    SelfSound(h);
    if gid in h.groups && nonce in h.groups[gid].invites {
      var h' := Accept(h, gid, nonce, cid, secret, pid).0;
      assert GroupOk(h.groups[gid]);
      hide HostOk;
      PutSound(h, gid, h'.groups[gid], h'.dirty);
    }
  }

  lemma AdmitSound(h: Host, gid: Key, m: MemberCred, admit: AdmitObject, pk: Key, fanout: Fanout)
    requires HostOk(h)
    ensures Sound(h, Admit(h, gid, m, admit, pk, fanout).0)
  {
    SelfSound(h);
    var h' := Admit(h, gid, m, admit, pk, fanout).0;
    if h' != h {
      assert GroupOk(h.groups[gid]);
      hide HostOk;
      PutSound(h, gid, h'.groups[gid], h'.dirty);
    }
  }

  lemma RefreshSound(h: Host, gid: Key, m: MemberCred, fanout: Fanout)
    requires HostOk(h)
    ensures Sound(h, RefreshFanout(h, gid, m, fanout).0)
  {
    SelfSound(h);
    if Authorized(h, gid, m) {
      var h' := RefreshFanout(h, gid, m, fanout).0;
      assert GroupOk(h.groups[gid]);
      hide HostOk;
      PutSound(h, gid, h'.groups[gid], h'.dirty);
    }
  }

  lemma FanoutSound(h: Host, gid: Key, kind: Kind, body: Body, bad: set<Key>)
    requires HostOk(h)
    ensures Sound(h, FanoutCopy(h, gid, kind, body, bad).0)
  {
    SelfSound(h);
    var h' := FanoutCopy(h, gid, kind, body, bad).0;
    if h' != h {
      var g := h.groups[gid];
      assert GroupOk(g);
      hide HostOk;
      var g' := h'.groups[gid];
      assert g'.stream[..|g'.stream| - 1] == g.stream;
      PutSound(h, gid, g', h'.dirty);
    }
  }

  lemma SetCredSound(h: Host, gid: Key, cid: Key, c: Cred, d: GroupDirty)
    requires HostOk(h) && gid in h.groups && cid in h.groups[gid].creds
    requires CredOk(c) && CredMoves(h.groups[gid].creds[cid], c)
    requires IsReserved(h.groups[gid].creds[cid]) ==> IsReserved(c)
    ensures Sound(h, SetCred(h, gid, cid, c).(dirty := d))
  {
    var g := h.groups[gid];
    assert GroupOk(g);
    hide HostOk;
    PutSound(h, gid, g.(creds := g.creds[cid := c]), d);
    assert SetCred(h, gid, cid, c).(dirty := d) == PutGroup(h, gid, g.(creds := g.creds[cid := c]), d);
  }

  lemma MovesTwice(h: Host, h1: Host, h2: Host)
    requires HostMoves(h, h1) && HostMoves(h1, h2)
    ensures HostMoves(h, h2)
  {
    hide GroupMoves;
    forall gid | gid in h.groups ensures GroupMoves(h.groups[gid], h2.groups[gid]) {
      GroupMovesTwice(h.groups[gid], h1.groups[gid], h2.groups[gid]);
    }
  }

  lemma GroupMovesTwice(a: Group, b: Group, c: Group)
    requires GroupMoves(a, b) && GroupMoves(b, c)
    ensures GroupMoves(a, c)
  {
  }

  lemma RemoveSound(h: Host, gid: Key, m: MemberCred, body: Body, parsed: Parsed, bad: set<Key>)
    requires HostOk(h)
    ensures Sound(h, AppendRemove(h, gid, m, body, parsed, bad).0)
  {
    hide FanoutCopy, HostMoves;
    SelfSound(h);
    FanoutSound(h, gid, RemoveBundle, body, bad);
    var (h1, r) := FanoutCopy(h, gid, RemoveBundle, body, bad);
    if parsed.RemoveMsg? && r.Ok? && SignedBy(h, gid, m.cid, parsed.signedBy) && parsed.gid == gid {
      var d := MarkCred(h1.dirty, gid, parsed.named);
      if gid in h1.groups && parsed.named in h1.groups[gid].creds {
        assert GroupOk(h1.groups[gid]);
        SetCredSound(h1, gid, parsed.named, h1.groups[gid].creds[parsed.named].(live := false, fanout := None), d);
        hide HostOk;
        MovesTwice(h, h1, AppendRemove(h, gid, m, body, parsed, bad).0);
      } else {
        DirtyOnly(h, h1, d);
      }
    }
  }

  lemma DirtyOnly(h: Host, h1: Host, d: GroupDirty)
    requires Sound(h, h1)
    ensures Sound(h, h1.(dirty := d))
  {
    hide GroupMoves, GroupsOk, FilesOk;
  }

  lemma ReplaceSound(h: Host, gid: Key, m: MemberCred, body: Body, parsed: Parsed, bad: set<Key>)
    requires HostOk(h) && Authorized(h, gid, m)
    ensures Sound(h, AppendReplace(h, gid, m, body, parsed, bad).0)
  {
    hide FanoutCopy, HostMoves;
    SelfSound(h);
    if parsed.ReplaceMsg? && SignedBy(h, gid, m.cid, parsed.signedBy) {
      assert GroupOk(h.groups[gid]);
      var c := h.groups[gid].creds[m.cid].(signingPk := Some(parsed.newKey));
      var d := MarkCred(h.dirty, gid, m.cid);
      SetCredSound(h, gid, m.cid, c, d);
      var h1 := SetCred(h, gid, m.cid, c).(dirty := d);
      FanoutSound(h1, gid, SigningReplace, body, bad);
      hide HostOk;
      MovesTwice(h, h1, FanoutCopy(h1, gid, SigningReplace, body, bad).0);
    }
  }

  // ------------------------------------------------------------------- file budget

  lemma {:induction false} LiveBytesRemove(files: map<Key, Slot>, gid: Key, now: nat, t: Key)
    requires t in files
    ensures LiveBytes(files, gid, now)
            == (if LiveSlot(files[t], gid, now) then files[t].size else 0) + LiveBytes(files - {t}, gid, now)
    decreases |files|
  {
    hide LiveSlot;
    var p := Member(files.Keys);
    if p != t {
      LiveBytesRemove(files - {p}, gid, now, t);
      LiveBytesRemove(files - {t}, gid, now, p);
      SwapTwo(files, p, t);
    }
  }

  lemma SwapTwo(files: map<Key, Slot>, p: Key, t: Key)
    ensures files - {p} - {t} == files - {t} - {p}
  {
  }

  /** As time passes reservations only lapse. */
  lemma {:induction false} LiveBytesLapse(files: map<Key, Slot>, gid: Key, now: nat, later: nat)
    requires now <= later
    ensures LiveBytes(files, gid, later) <= LiveBytes(files, gid, now)
    decreases |files|
  {
    if files.Keys != {} {
      LiveBytesLapse(files - {Member(files.Keys)}, gid, now, later);
    }
  }

  lemma TickSound(h: Host, time: nat)
    requires HostOk(h) && h.now <= time
    ensures Sound(h, h.(now := time))
  {
    hide GroupMoves, GroupsOk, FilesOk;
    SameGroupMoves(h);
    forall gid ensures LiveBytes(h.files, gid, time) <= h.budget { LiveBytesLapse(h.files, gid, h.now, time); }
  }

  lemma ReserveSound(h: Host, gid: Key, m: MemberCred, body: Body, parsed: Parsed, bad: set<Key>)
    requires HostOk(h) && h.budget < U64_MAX
    ensures Sound(h, AppendReserve(h, gid, m, body, parsed, bad).0)
  {
    SelfSound(h);
    FanoutSound(h, gid, Reserve, body, bad);
    var (h1, r) := FanoutCopy(h, gid, Reserve, body, bad);
    assert h1.files == h.files && h1.now == h.now && h1.budget == h.budget;
    var h' := AppendReserve(h, gid, m, body, parsed, bad).0;
    hide FanoutCopy, GroupMoves, GroupsOk;
    if h' != h && h' != h1 {
      var slot := h'.files[parsed.token];
      assert h'.files == h.files[parsed.token := slot] && h'.groups == h1.groups && h'.now == h.now && h'.budget == h.budget;
      assert SatAdd(LiveBytes(h.files, gid, h.now), slot.size) <= h.budget && parsed.token !in h.files;
      assert slot.gid == gid && slot.bytes.None?;
      hide AppendReserve;
      forall x ensures LiveBytes(h'.files, x, h.now) <= h.budget {
        LiveBytesRemove(h'.files, x, h.now, parsed.token);
        assert h'.files - {parsed.token} == h.files;
      }
    }
  }

  lemma UploadSound(h: Host, gid: Key, m: MemberCred, token: Key, body: Body)
    requires HostOk(h)
    ensures Sound(h, Upload(h, gid, m, token, body).0)
  {
    hide GroupMoves, GroupsOk;
    SelfSound(h);
    var h' := Upload(h, gid, m, token, body).0;
    if h' != h {
      forall x ensures LiveBytes(h'.files, x, h.now) <= h.budget {
        LiveBytesRemove(h'.files, x, h.now, token);
        LiveBytesRemove(h.files, x, h.now, token);
        assert h'.files - {token} == h.files - {token};
      }
    }
  }

  /**
   One step of the host, whatever it is and whether or not it succeeds: every invariant is kept and nothing moves
   except forwards.
   */
  lemma StepSound(h: Host, op: Op)
    requires HostOk(h) && Admissible(h, op) && h.budget < U64_MAX
    ensures Sound(h, Step(h, op))
  {
    hide HostOk, Sound, Create, StoreInvite, Accept, Admit, RefreshFanout, FanoutCopy, AppendRemove, AppendReplace;
    hide AppendReserve, Upload;
    SelfSound(h);
    match op
    case OpTick(time) => TickSound(h, time);
    case OpCreate(gid, cid, secret, pk, fanout, creator) => CreateSound(h, gid, cid, secret, pk, fanout, creator);
    case OpStoreInvite(gid, m, inv) => StoreInviteSound(h, gid, m, inv);
    case OpAccept(gid, nonce, cid, secret, pid) => AcceptSound(h, gid, nonce, cid, secret, pid);
    case OpAdmit(gid, m, admit, pk, fanout) => AdmitSound(h, gid, m, admit, pk, fanout);
    case OpRefreshFanout(gid, m, fanout) => RefreshSound(h, gid, m, fanout);
    case OpHostRevocation(gid, body, bad) => FanoutSound(h, gid, Revocation, body, bad);
    case OpAppend(gid, m, kind, body, parsed, bad) =>
      if Authorized(h, gid, m) {
        RemoveSound(h, gid, m, body, parsed, bad);
        ReplaceSound(h, gid, m, body, parsed, bad);
        ReserveSound(h, gid, m, body, parsed, bad);
        FanoutSound(h, gid, kind, body, bad);
      }
    case OpUpload(gid, m, token, body) => UploadSound(h, gid, m, token, body);
  }

  // ------------------------------------------------------------------------ runs

  ghost predicate IsRun(hs: seq<Host>, ops: seq<Op>) {
    && |hs| == |ops| + 1
    && forall i :: 0 <= i < |ops| ==> Admissible(hs[i], ops[i]) && hs[i + 1] == Step(hs[i], ops[i])
  }

  /** Every state of every run is sound, and each moves only forwards from the first. */
  lemma {:induction false} RunSound(hs: seq<Host>, ops: seq<Op>)
    requires IsRun(hs, ops) && HostOk(hs[0]) && hs[0].budget < U64_MAX
    ensures HostOk(hs[|ops|]) && HostMoves(hs[0], hs[|ops|])
  {
    hide HostOk, Step, Admissible, HostMoves;
    if |ops| == 0 {
      SelfSound(hs[0]);
    } else {
      var n := |ops| - 1;
      assert hs[..n + 1][n] == hs[n];
      RunSound(hs[..n + 1], ops[..n]);
      BudgetFixed(hs[0], hs[n]);
      StepSound(hs[n], ops[n]);
      MovesTwice(hs[0], hs[n], hs[n + 1]);
    }
  }

  lemma BudgetFixed(h: Host, h': Host)
    requires HostMoves(h, h')
    ensures h'.budget == h.budget
  {
  }

  ghost predicate Suffix(hs: seq<Host>, ops: seq<Op>, i: nat)
    requires i <= |ops| && |hs| == |ops| + 1
  {
    IsRun(hs[i..], ops[i..])
  }

  lemma RunSuffix(hs: seq<Host>, ops: seq<Op>, i: nat)
    requires IsRun(hs, ops) && i <= |ops|
    ensures Suffix(hs, ops, i)
  {
    hide Step, Admissible;
    forall k | 0 <= k < |ops| - i
      ensures Admissible(hs[i..][k], ops[i..][k]) && hs[i..][k + 1] == Step(hs[i..][k], ops[i..][k])
    {
      assert hs[i..][k] == hs[i + k] && hs[i..][k + 1] == hs[i + k + 1] && ops[i..][k] == ops[i + k];
    }
  }

  lemma LaterMoves(hs: seq<Host>, ops: seq<Op>, i: nat)
    requires IsRun(hs, ops) && HostOk(hs[0]) && hs[0].budget < U64_MAX && i <= |ops|
    ensures HostOk(hs[i]) && HostOk(hs[|ops|]) && HostMoves(hs[i], hs[|ops|])
  {
    hide HostOk, Step, Admissible, HostMoves;
    assert hs[..i + 1][i] == hs[i];
    assert IsRun(hs[..i + 1], ops[..i]);
    RunSound(hs[..i + 1], ops[..i]);
    BudgetFixed(hs[0], hs[i]);
    RunSuffix(hs, ops, i);
    RunSound(hs[i..], ops[i..]);
    assert hs[i..][|ops| - i] == hs[|ops|];
  }

  /** A credential that was live and is not any more stays exactly as it is for the rest of the run. */
  lemma RemovedNeverReturns(hs: seq<Host>, ops: seq<Op>, i: nat, gid: Key, cid: Key)
    requires IsRun(hs, ops) && HostOk(hs[0]) && hs[0].budget < U64_MAX && i <= |ops|
    requires gid in hs[i].groups && cid in hs[i].groups[gid].creds && IsDead(hs[i].groups[gid].creds[cid])
    ensures gid in hs[|ops|].groups && cid in hs[|ops|].groups[gid].creds
    ensures hs[|ops|].groups[gid].creds[cid] == hs[i].groups[gid].creds[cid]
  {
    hide HostOk, Step, Admissible;
    LaterMoves(hs, ops, i);
    assert GroupMoves(hs[i].groups[gid], hs[|ops|].groups[gid]);
  }

  /** The first upload into a slot has the reserved size and is what every later fetch that succeeds returns. */
  lemma FirstUploadWins(hs: seq<Host>, ops: seq<Op>, i: nat, token: Key, gid: Key, m: MemberCred)
    requires IsRun(hs, ops) && HostOk(hs[0]) && hs[0].budget < U64_MAX && i <= |ops|
    requires token in hs[i].files && hs[i].files[token].bytes.Some?
    ensures hs[i].files[token].bytes.value.len == hs[i].files[token].size
    ensures FetchFile(hs[|ops|], gid, m, token).Ok? ==>
              FetchFile(hs[|ops|], gid, m, token) == Ok(hs[i].files[token].bytes.value)
  {
    hide GroupsOk, Step, Admissible, GroupMoves, BudgetOk;
    LaterMoves(hs, ops, i);
  }

  /** Sequence numbers of a group's stream are 1..n at all times, and what was appended stays where it was put. */
  lemma StreamIsAppendOnly(hs: seq<Host>, ops: seq<Op>, i: nat, gid: Key)
    requires IsRun(hs, ops) && HostOk(hs[0]) && hs[0].budget < U64_MAX && i <= |ops| && gid in hs[i].groups
    ensures gid in hs[|ops|].groups
    ensures hs[i].groups[gid].stream <= hs[|ops|].groups[gid].stream
    ensures StreamOk(hs[|ops|].groups[gid])
  {
    hide Step, Admissible;
    LaterMoves(hs, ops, i);
    assert GroupMoves(hs[i].groups[gid], hs[|ops|].groups[gid]) && GroupOk(hs[|ops|].groups[gid]);
    hide CredsMove, CredsOk, PendingOk, FilesOk;
  }

  /** A removal goes to exactly the credentials live before it, the named one included, and then removes only that one. */
  lemma RemovalReachesEveryone(h: Host, gid: Key, m: MemberCred, body: Body, parsed: Parsed, bad: set<Key>)
    requires HostOk(h) && Append(h, gid, m, RemoveBundle, body, parsed, bad).1.Ok?
    ensures var (h', r) := Append(h, gid, m, RemoveBundle, body, parsed, bad);
            && gid in h'.groups
            && (forall c :: c in r.value.copies <==> c in h.groups[gid].creds && h.groups[gid].creds[c].live)
            && (forall c :: c in r.value.copies ==> Some(r.value.copies[c]) == h.groups[gid].creds[c].fanout)
            && r.value.seqNo == h.groups[gid].nextSeq
            && h'.groups[gid].stream == h.groups[gid].stream + [StreamRow(r.value.seqNo, RemoveBundle, body, h.now)]
            && h'.groups[gid].creds.Keys == h.groups[gid].creds.Keys
            && (forall c :: c in h'.groups[gid].creds ==>
                  h'.groups[gid].creds[c] == if c == parsed.named
                                             then h.groups[gid].creds[c].(live := false, fanout := None)
                                             else h.groups[gid].creds[c])
            && (forall x :: x in h.groups && x != gid ==> x in h'.groups && h'.groups[x] == h.groups[x])
            && h'.files == h.files
  {
    assert GroupOk(h.groups[gid]);
    hide HostOk, PendingOk, StreamOk;
  }

  // ----------------------------------------------------------------- groups per owner

  ghost predicate OwnersOk(h: Host) {
    forall owner :: |OwnedGroups(h.groups, owner)| <= GROUPS_PER_OWNER
  }

  lemma FanoutKeepsGroups(h: Host, gid: Key, kind: Kind, body: Body, bad: set<Key>)
    ensures FanoutCopy(h, gid, kind, body, bad).0.groups.Keys == h.groups.Keys
  {
    hide Targets, Unsealable;
  }

  lemma RemoveKeepsGroups(h: Host, gid: Key, m: MemberCred, body: Body, parsed: Parsed, bad: set<Key>)
    ensures AppendRemove(h, gid, m, body, parsed, bad).0.groups.Keys == h.groups.Keys
  {
    FanoutKeepsGroups(h, gid, RemoveBundle, body, bad);
    hide FanoutCopy;
  }

  lemma ReserveKeepsGroups(h: Host, gid: Key, m: MemberCred, body: Body, parsed: Parsed, bad: set<Key>)
    ensures AppendReserve(h, gid, m, body, parsed, bad).0.groups.Keys == h.groups.Keys
  {
    FanoutKeepsGroups(h, gid, Reserve, body, bad);
    hide FanoutCopy, LiveBytes;
  }

  lemma ReplaceKeepsGroups(h: Host, gid: Key, m: MemberCred, body: Body, parsed: Parsed, bad: set<Key>)
    requires Authorized(h, gid, m)
    ensures AppendReplace(h, gid, m, body, parsed, bad).0.groups.Keys == h.groups.Keys
  {
    if parsed.ReplaceMsg? {
      var h1 := SetCred(h, gid, m.cid, h.groups[gid].creds[m.cid].(signingPk := Some(parsed.newKey)));
      FanoutKeepsGroups(h1.(dirty := MarkCred(h1.dirty, gid, m.cid)), gid, SigningReplace, body, bad);
    }
    hide FanoutCopy;
  }

  lemma AppendKeepsGroups(h: Host, gid: Key, m: MemberCred, kind: Kind, body: Body, parsed: Parsed, bad: set<Key>)
    ensures Append(h, gid, m, kind, body, parsed, bad).0.groups.Keys == h.groups.Keys
  {
    hide AppendRemove, AppendReplace, AppendReserve, FanoutCopy;
    if Authorized(h, gid, m) {
      RemoveKeepsGroups(h, gid, m, body, parsed, bad);
      ReserveKeepsGroups(h, gid, m, body, parsed, bad);
      ReplaceKeepsGroups(h, gid, m, body, parsed, bad);
      FanoutKeepsGroups(h, gid, kind, body, bad);
    }
  }

  lemma OnlyCreateAddsGroups(h: Host, op: Op)
    requires !op.OpCreate?
    ensures Step(h, op).groups.Keys == h.groups.Keys
  {
    hide Append, FanoutCopy, UnexpiredInvites, UnexpiredPending;
    match op
    case OpAppend(gid, m, kind, body, parsed, bad) => AppendKeepsGroups(h, gid, m, kind, body, parsed, bad);
    case OpHostRevocation(gid, body, bad) => FanoutKeepsGroups(h, gid, Revocation, body, bad);
    case _ =>
  }

  lemma CreateKeepsOwners(h: Host, gid: Key, cid: Key, secret: Key, pk: Key, fanout: Fanout, creator: Option<Key>)
    requires gid !in h.groups && OwnersOk(h)
    ensures OwnersOk(Create(h, gid, cid, secret, pk, fanout, creator).0)
  {
    var h' := Create(h, gid, cid, secret, pk, fanout, creator).0;
    forall owner ensures |OwnedGroups(h'.groups, owner)| <= GROUPS_PER_OWNER {
      if creator == Some(owner) && h' != h {
        assert OwnedGroups(h'.groups, owner) == OwnedGroups(h.groups, owner) + {gid};
      } else {
        assert OwnedGroups(h'.groups, owner) == OwnedGroups(h.groups, owner);
      }
    }
  }

  lemma SameCreatorsKeepOwners(h: Host, h': Host)
    requires OwnersOk(h) && HostMoves(h, h') && h'.groups.Keys == h.groups.Keys
    ensures OwnersOk(h')
  {
    hide CredsMove;
    forall owner ensures |OwnedGroups(h'.groups, owner)| <= GROUPS_PER_OWNER {
      assert forall gid :: gid in h.groups ==> h'.groups[gid].creator == h.groups[gid].creator;
      assert OwnedGroups(h'.groups, owner) == OwnedGroups(h.groups, owner);
    }
  }

  lemma StepKeepsOwners(h: Host, op: Op)
    requires HostOk(h) && Admissible(h, op) && h.budget < U64_MAX && OwnersOk(h)
    ensures OwnersOk(Step(h, op))
  {
    hide HostOk, OwnersOk, HostMoves;
    if op.OpCreate? {
      CreateKeepsOwners(h, op.gid, op.cid, op.secret, op.signingPk, op.fanout, op.creator);
      hide Create;
    } else {
      OnlyCreateAddsGroups(h, op);
      StepSound(h, op);
      hide Step;
      SameCreatorsKeepOwners(h, Step(h, op));
    }
  }

  /** No owner ever has more than its share of groups, at any moment of any run. */
  lemma {:induction false} OwnersWithinCap(hs: seq<Host>, ops: seq<Op>, i: nat)
    requires IsRun(hs, ops) && HostOk(hs[0]) && hs[0].budget < U64_MAX && OwnersOk(hs[0]) && i < |hs|
    ensures forall owner :: |OwnedGroups(hs[i].groups, owner)| <= GROUPS_PER_OWNER
    decreases i
  {
    if i > 0 {
      OwnersWithinCap(hs, ops, i - 1);
      assert hs[..i][i - 1] == hs[i - 1];
      RunSound(hs[..i], ops[..i - 1]);
      BudgetFixed(hs[0], hs[i - 1]);
      hide HostOk, Step, Admissible, HostMoves;
      StepKeepsOwners(hs[i - 1], ops[i - 1]);
    }
  }

  // -------------------------------------------------------------- where credentials come from

  // What happened so far, counted: invites stored and redeemed by (group, nonce); credentials founded with their
  // group, reserved by a redeemed invite, and admitted, by (group, credential).
  datatype Ledger = Ledger(
    stored: multiset<(Key, Key)>, redeemed: multiset<(Key, Key)>,
    founded: multiset<(Key, Key)>, reserved: multiset<(Key, Key)>, admitted: multiset<(Key, Key)>)

  const NO_LEDGER := Ledger(multiset{}, multiset{}, multiset{}, multiset{}, multiset{})

  ghost function Record(l: Ledger, h: Host, op: Op): Ledger {
    match op
    case OpCreate(gid, cid, secret, pk, fanout, creator) =>
      if Create(h, gid, cid, secret, pk, fanout, creator).1.Ok?
      then l.(founded := l.founded + multiset{(gid, cid)}) else l
    case OpStoreInvite(gid, m, inv) =>
      if StoreInvite(h, gid, m, inv).1.Ok? then l.(stored := l.stored + multiset{(gid, inv.nonce)}) else l
    case OpAccept(gid, nonce, cid, secret, pid) =>
      if Accept(h, gid, nonce, cid, secret, pid).1.Ok?
      then l.(redeemed := l.redeemed + multiset{(gid, nonce)}, reserved := l.reserved + multiset{(gid, cid)}) else l
    case OpAdmit(gid, m, admit, pk, fanout) =>
      var r := Admit(h, gid, m, admit, pk, fanout).1;
      if r.Ok? then l.(admitted := l.admitted + multiset{(gid, r.value)}) else l
    case _ => l
  }

  predicate HasCred(h: Host, gid: Key, cid: Key) {
    gid in h.groups && cid in h.groups[gid].creds
  }

  predicate HasInvite(h: Host, gid: Key, nonce: Key) {
    gid in h.groups && nonce in h.groups[gid].invites
  }

  predicate EverLive(h: Host, gid: Key, cid: Key) {
    HasCred(h, gid, cid) && !IsReserved(h.groups[gid].creds[cid])
  }

  function One(b: bool): nat { if b then 1 else 0 }

  /** No invite is redeemed more often than it was stored, counting the stored one that is still held. */
  ghost predicate InvitesBalance(l: Ledger, h: Host) {
    forall gid, nonce ::
      l.redeemed[(gid, nonce)] + One(HasInvite(h, gid, nonce)) <= l.stored[(gid, nonce)]
  }

  /** Every credential was founded once or reserved once, never both; one reserved was live exactly if admitted, once. */
  ghost predicate OriginsBalance(l: Ledger, h: Host) {
    && (forall gid, cid :: l.founded[(gid, cid)] + l.reserved[(gid, cid)] == One(HasCred(h, gid, cid)))
    && (forall gid, cid :: l.founded[(gid, cid)] + l.admitted[(gid, cid)] == One(EverLive(h, gid, cid)))
  }

  ghost predicate LedgerOk(l: Ledger, h: Host) {
    InvitesBalance(l, h) && OriginsBalance(l, h)
  }

  /** Steps that store, redeem, found, reserve or admit nothing. */
  ghost predicate Quiet(h: Host, h': Host) {
    && (forall gid, nonce :: HasInvite(h', gid, nonce) ==> HasInvite(h, gid, nonce))
    && (forall gid, cid :: HasCred(h', gid, cid) <==> HasCred(h, gid, cid))
    && (forall gid, cid :: EverLive(h', gid, cid) <==> EverLive(h, gid, cid))
  }

  lemma QuietKeepsLedger(l: Ledger, h: Host, h': Host)
    requires LedgerOk(l, h) && Quiet(h, h')
    ensures LedgerOk(l, h')
  {
  }

  lemma QuietTwice(h: Host, h1: Host, h2: Host)
    requires Quiet(h, h1) && Quiet(h1, h2)
    ensures Quiet(h, h2)
  {
  }

  lemma FanoutQuiet(h: Host, gid: Key, kind: Kind, body: Body, bad: set<Key>)
    ensures Quiet(h, FanoutCopy(h, gid, kind, body, bad).0)
  {
    hide Targets, Unsealable;
  }

  /** Replacing a credential that was ever live by one that was, or one reserved by one reserved. */
  lemma SetCredQuiet(h: Host, gid: Key, cid: Key, c: Cred, d: GroupDirty)
    requires gid in h.groups && cid in h.groups[gid].creds
    requires IsReserved(c) <==> IsReserved(h.groups[gid].creds[cid])
    ensures Quiet(h, SetCred(h, gid, cid, c).(dirty := d))
  {
  }

  lemma DirtyQuiet(h: Host, d: GroupDirty)
    ensures Quiet(h, h.(dirty := d))
  {
  }

  lemma RemoveQuiet(h: Host, gid: Key, m: MemberCred, body: Body, parsed: Parsed, bad: set<Key>)
    requires HostOk(h)
    ensures Quiet(h, AppendRemove(h, gid, m, body, parsed, bad).0)
  {
    hide FanoutCopy, Quiet;
    DirtyQuiet(h, h.dirty);
    FanoutQuiet(h, gid, RemoveBundle, body, bad);
    FanoutSound(h, gid, RemoveBundle, body, bad);
    var (h1, r) := FanoutCopy(h, gid, RemoveBundle, body, bad);
    if parsed.RemoveMsg? {
      var d := MarkCred(h1.dirty, gid, parsed.named);
      DirtyQuiet(h1, d);
      QuietTwice(h, h1, h1.(dirty := d));
      if gid in h1.groups && parsed.named in h1.groups[gid].creds {
        assert GroupOk(h1.groups[gid]);
        var c := h1.groups[gid].creds[parsed.named].(live := false, fanout := None);
        SetCredQuiet(h1, gid, parsed.named, c, d);
        QuietTwice(h, h1, SetCred(h1, gid, parsed.named, c).(dirty := d));
      }
    }
  }

  lemma ReplaceQuiet(h: Host, gid: Key, m: MemberCred, body: Body, parsed: Parsed, bad: set<Key>)
    requires HostOk(h) && Authorized(h, gid, m)
    ensures Quiet(h, AppendReplace(h, gid, m, body, parsed, bad).0)
  {
    hide FanoutCopy, Quiet;
    DirtyQuiet(h, h.dirty);
    assert GroupOk(h.groups[gid]);
    hide HostOk;
    if parsed.ReplaceMsg? {
      var c := h.groups[gid].creds[m.cid].(signingPk := Some(parsed.newKey));
      var d := MarkCred(h.dirty, gid, m.cid);
      SetCredQuiet(h, gid, m.cid, c, d);
      var h1 := SetCred(h, gid, m.cid, c).(dirty := d);
      FanoutQuiet(h1, gid, SigningReplace, body, bad);
      QuietTwice(h, h1, FanoutCopy(h1, gid, SigningReplace, body, bad).0);
    }
  }

  lemma ReserveQuiet(h: Host, gid: Key, m: MemberCred, body: Body, parsed: Parsed, bad: set<Key>)
    ensures Quiet(h, AppendReserve(h, gid, m, body, parsed, bad).0)
  {
    FanoutQuiet(h, gid, Reserve, body, bad);
    hide FanoutCopy, LiveBytes;
  }

  lemma RefreshQuiet(h: Host, gid: Key, m: MemberCred, fanout: Fanout)
    requires HostOk(h)
    ensures Quiet(h, RefreshFanout(h, gid, m, fanout).0)
  {
    DirtyQuiet(h, h.dirty);
    hide Quiet;
    if Authorized(h, gid, m) {
      assert GroupOk(h.groups[gid]);
      hide HostOk;
      SetCredQuiet(h, gid, m.cid, h.groups[gid].creds[m.cid].(fanout := Some(fanout)), MarkCred(h.dirty, gid, m.cid));
    }
  }

  lemma CreateLedger(l: Ledger, h: Host, op: Op)
    requires LedgerOk(l, h) && op.OpCreate? && Admissible(h, op)
    ensures LedgerOk(Record(l, h, op), Step(h, op))
  {
  }

  lemma StoreLedger(l: Ledger, h: Host, op: Op)
    requires LedgerOk(l, h) && op.OpStoreInvite?
    ensures LedgerOk(Record(l, h, op), Step(h, op))
  {
  }

  lemma AcceptLedger(l: Ledger, h: Host, op: Op)
    requires LedgerOk(l, h) && op.OpAccept? && Admissible(h, op)
    ensures LedgerOk(Record(l, h, op), Step(h, op))
  {
    AcceptInvites(l, h, op);
    AcceptOrigins(l, h, op);
    hide Record, Step, InvitesBalance, OriginsBalance;
  }

  lemma AcceptInvites(l: Ledger, h: Host, op: Op)
    requires InvitesBalance(l, h) && op.OpAccept?
    ensures InvitesBalance(Record(l, h, op), Step(h, op))
  {
  }

  lemma AcceptOrigins(l: Ledger, h: Host, op: Op)
    requires OriginsBalance(l, h) && op.OpAccept? && Admissible(h, op)
    ensures OriginsBalance(Record(l, h, op), Step(h, op))
  {
    AcceptHeld(h, op);
    hide Step, Accept, HasCred, EverLive;
  }

  lemma AcceptHeld(h: Host, op: Op)
    requires op.OpAccept? && Admissible(h, op)
    ensures var h' := Step(h, op); var ok := Accept(h, op.gid, op.nonce, op.cid, op.secret, op.pid).1.Ok?;
            && (ok ==> !HasCred(h, op.gid, op.cid) && HasCred(h', op.gid, op.cid))
            && (forall gid, cid :: (gid, cid) != (op.gid, op.cid) || !ok ==> (HasCred(h', gid, cid) <==> HasCred(h, gid, cid)))
            && (forall gid, cid :: EverLive(h', gid, cid) <==> EverLive(h, gid, cid))
  {
  }

  lemma AdmitLedger(l: Ledger, h: Host, op: Op)
    requires LedgerOk(l, h) && HostOk(h) && op.OpAdmit?
    ensures LedgerOk(Record(l, h, op), Step(h, op))
  {
    AdmitInvites(l, h, op);
    AdmitOrigins(l, h, op);
    hide HostOk, Record, Step, InvitesBalance, OriginsBalance;
  }

  lemma AdmitInvites(l: Ledger, h: Host, op: Op)
    requires InvitesBalance(l, h) && op.OpAdmit?
    ensures InvitesBalance(Record(l, h, op), Step(h, op))
  {
  }

  lemma AdmitOrigins(l: Ledger, h: Host, op: Op)
    requires OriginsBalance(l, h) && HostOk(h) && op.OpAdmit?
    ensures OriginsBalance(Record(l, h, op), Step(h, op))
  {
    AdmitHeld(h, op);
    hide HostOk, Step, Admit, HasCred, EverLive;
  }

  /** An admission makes one reserved credential live, and no credential appears or goes. */
  lemma AdmitHeld(h: Host, op: Op)
    requires HostOk(h) && op.OpAdmit?
    ensures var h', r := Step(h, op), Admit(h, op.gid, op.m, op.admit, op.joinerPk, op.fanout).1;
            && (forall gid, cid :: HasCred(h', gid, cid) <==> HasCred(h, gid, cid))
            && (r.Ok? ==> !EverLive(h, op.gid, r.value) && EverLive(h', op.gid, r.value))
            && (forall gid, cid :: r.Err? || (gid, cid) != (op.gid, r.value) ==> (EverLive(h', gid, cid) <==> EverLive(h, gid, cid)))
  {
    assert op.gid in h.groups ==> GroupOk(h.groups[op.gid]);
    hide HostOk, StreamOk, CredsOk, UnexpiredInvites;
  }

  lemma AppendLedger(l: Ledger, h: Host, op: Op)
    requires LedgerOk(l, h) && HostOk(h) && (op.OpAppend? || op.OpHostRevocation? || op.OpRefreshFanout?)
    ensures LedgerOk(Record(l, h, op), Step(h, op))
  {
    hide HostOk, LedgerOk, Quiet, FanoutCopy, AppendRemove, AppendReplace, AppendReserve, RefreshFanout;
    DirtyQuiet(h, h.dirty);
    match op {
      case OpRefreshFanout(gid, m, fanout) => RefreshQuiet(h, gid, m, fanout);
      case OpHostRevocation(gid, body, bad) => FanoutQuiet(h, gid, Revocation, body, bad);
      case OpAppend(gid, m, kind, body, parsed, bad) =>
        if Authorized(h, gid, m) {
          RemoveQuiet(h, gid, m, body, parsed, bad);
          ReplaceQuiet(h, gid, m, body, parsed, bad);
          ReserveQuiet(h, gid, m, body, parsed, bad);
          FanoutQuiet(h, gid, kind, body, bad);
        }
    }
    QuietKeepsLedger(l, h, Step(h, op));
  }

  lemma StepLedger(l: Ledger, h: Host, op: Op)
    requires LedgerOk(l, h) && HostOk(h) && Admissible(h, op)
    ensures LedgerOk(Record(l, h, op), Step(h, op))
  {
    match op
    case OpTick(_) => hide HostOk; QuietKeepsLedger(l, h, Step(h, op));
    case OpUpload(_, _, _, _) => hide HostOk; QuietKeepsLedger(l, h, Step(h, op));
    case OpCreate(_, _, _, _, _, _) => hide *; CreateLedger(l, h, op);
    case OpStoreInvite(_, _, _) => hide *; StoreLedger(l, h, op);
    case OpAccept(_, _, _, _, _) => hide *; AcceptLedger(l, h, op);
    case OpAdmit(_, _, _, _, _) => hide *; AdmitLedger(l, h, op);
    case _ => hide *; AppendLedger(l, h, op);
  }

  ghost function Book(hs: seq<Host>, ops: seq<Op>): Ledger
    requires |hs| == |ops| + 1
  {
    if ops == [] then NO_LEDGER
    else Record(Book(hs[..|ops|], ops[..|ops| - 1]), hs[|ops| - 1], ops[|ops| - 1])
  }

  ghost predicate EmptyHost(h: Host) {
    h.groups == map[] && h.files == map[]
  }

  /**
   In every run of a new host: a credential that is or was live was either founded with its group, once and never
   through an invite, or reserved by exactly one redeemed invite and admitted exactly once; and over the whole run
   no invite is redeemed more often than it was stored.
   */
  lemma {:induction false} CredentialsHaveOneOrigin(hs: seq<Host>, ops: seq<Op>)
    requires IsRun(hs, ops) && EmptyHost(hs[0]) && hs[0].budget < U64_MAX
    ensures HostOk(hs[|ops|]) && LedgerOk(Book(hs, ops), hs[|ops|])
  {
    if |ops| == 0 {
      assert HostOk(hs[0]);
    } else {
      var n := |ops| - 1;
      hide HostOk, Step, Admissible, LedgerOk, EmptyHost, Record;
      assert hs[..n + 1][n] == hs[n] && hs[..n + 1] == hs[..|ops|];
      CredentialsHaveOneOrigin(hs[..n + 1], ops[..n]);
      StartOk(hs[0]);
      LaterMoves(hs, ops, n);
      StepLedger(Book(hs[..n + 1], ops[..n]), hs[n], ops[n]);
    }
  }

  lemma StartOk(h: Host)
    requires EmptyHost(h)
    ensures HostOk(h)
  {
  }
}
