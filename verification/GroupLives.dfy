/**
 Lives in a hosted group, over whole runs and in seconds: an invite from being stored to being redeemed, a joiner from
 the redeemed invite to a live credential, and a file slot from its reservation to upload and download.
 */
module GroupLives {
  import opened Basics
  import opened GroupState
  import opened GroupLaws
  import opened GroupEffects

  // ------------------------------------------------------------------ single operations

  /** The invite is put in place anew. */
  predicate Restores(h: Host, op: Op, gid: Key, nonce: Key) {
    op.OpStoreInvite? && op.gid == gid && op.inv.nonce == nonce && StoreInvite(h, gid, op.m, op.inv).1.Ok?
  }

  predicate Redeems(op: Op, gid: Key, nonce: Key) {
    op.OpAccept? && op.gid == gid && op.nonce == nonce
  }

  /** A signed admission of this pending join by a live member. */
  predicate Admits(h: Host, op: Op, gid: Key, pid: Key) {
    && op.OpAdmit? && op.gid == gid && op.admit.pid == pid && op.admit.gid == gid
    && IsMember(h, gid, op.m) && op.admit.signedBy == h.groups[gid].creds[op.m.cid].signingPk
  }

  predicate Mints(op: Op, gid: Key, pid: Key) {
    op.OpAccept? && op.gid == gid && op.pid == pid
  }

  /** Who may store an invite, and what is stored: it lapses `ttl` seconds from now. */
  lemma StoreInviteExactly(h: Host, gid: Key, m: MemberCred, inv: InviteObject)
    requires HostOk(h)
    ensures var (h', r) := StoreInvite(h, gid, m, inv);
            && (r.Ok? <==> IsMember(h, gid, m) && inv.gid == gid && inv.signedBy == h.groups[gid].creds[m.cid].signingPk)
            && (r.Ok? ==> gid in h'.groups && SameElsewhere(h, h', gid) && h'.files == h.files
                          && h'.groups[gid] == h.groups[gid].(invites := h.groups[gid].invites[
                               inv.nonce := Invite(Min(h.now + inv.ttl, U64_MAX), inv.binding, inv.salt)]))
            && (r.Err? ==> h' == h)
  {
    if gid in h.groups { assert GroupOk(h.groups[gid]); }
    hide HostOk, PendingOk, StreamOk;
  }

  /** Redeeming uses the invite up; in time, it reserves a credential that is not live and opens a pending join. */
  lemma AcceptExactly(h: Host, gid: Key, nonce: Key, cid: Key, secret: Key, pid: Key)
    ensures var (h', r) := Accept(h, gid, nonce, cid, secret, pid);
            if gid !in h.groups || nonce !in h.groups[gid].invites then h' == h && r == Err(Denied)
            else
              var g, inv := h.groups[gid], h.groups[gid].invites[nonce];
              && (r.Ok? <==> h.now < inv.expiresAt)
              && gid in h'.groups && SameElsewhere(h, h', gid) && h'.files == h.files
              && h'.groups[gid] == if r.Ok? then Group(g.nextSeq, g.creds[cid := Cred(secret, false, None, None)],
                                                       g.invites - {nonce},
                                                       g.pending[pid := Pending(cid, secret, inv.expiresAt, inv.binding, inv.salt)],
                                                       g.bytes, g.stream, g.creator)
                                   else g.(invites := g.invites - {nonce})
  {
  }

  /** Operations that leave invites and pending joins alone. */
  predicate Unrelated(op: Op) {
    op.OpTick? || op.OpCreate? || op.OpRefreshFanout? || op.OpHostRevocation? || op.OpAppend? || op.OpUpload?
  }

  lemma UnrelatedKeeps(h: Host, op: Op, gid: Key)
    requires Unrelated(op) && Admissible(h, op) && gid in h.groups && h.budget < U64_MAX
    ensures var h' := Step(h, op);
            gid in h'.groups && h'.groups[gid].invites == h.groups[gid].invites && h'.groups[gid].pending == h.groups[gid].pending
  {
    hide Append, HostRevocation;
    match op
    case OpAppend(x, m, kind, body, parsed, bad) => AppendExactly(h, x, m, kind, body, parsed, bad); SameAt(h, Step(h, op), x, gid);
    case OpHostRevocation(x, body, bad) => HostRevocationExactly(h, x, body, bad); SameAt(h, Step(h, op), x, gid);
    case _ =>
  }

  lemma SameAt(h: Host, h': Host, x: Key, gid: Key)
    ensures SameElsewhere(h, h', x) && gid != x && gid in h.groups ==> gid in h'.groups && h'.groups[gid] == h.groups[gid]
  {
    assert SameElsewhere(h, h', x) && gid != x ==> Get(h'.groups, gid) == Get(h.groups, gid);
  }

  /** An invite nobody redeems or replaces stays, or goes once it has lapsed. */
  lemma InviteMoves(h: Host, op: Op, gid: Key, nonce: Key)
    requires Admissible(h, op) && gid in h.groups && h.budget < U64_MAX
    requires !Restores(h, op, gid, nonce) && !Redeems(op, gid, nonce)
    ensures gid in Step(h, op).groups
    ensures var a, b := Get(h.groups[gid].invites, nonce), Get(Step(h, op).groups[gid].invites, nonce);
            b == a || (b == None && a.Some? && h.now >= a.value.expiresAt)
  {
    if Unrelated(op) {
      UnrelatedKeeps(h, op, gid);
      hide Step;
    } else {
      hide UnexpiredPending;
    }
  }

  lemma PendingMoves(h: Host, op: Op, gid: Key, pid: Key)
    requires HostOk(h) && Admissible(h, op) && gid in h.groups && h.budget < U64_MAX
    requires !Admits(h, op, gid, pid) && !Mints(op, gid, pid)
    ensures gid in Step(h, op).groups
    ensures var a, b := Get(h.groups[gid].pending, pid), Get(Step(h, op).groups[gid].pending, pid);
            b == a || (b == None && a.Some? && h.now >= a.value.expiresAt)
  {
    if Unrelated(op) {
      UnrelatedKeeps(h, op, gid);
      hide Step;
    } else {
      if op.OpAdmit? && op.gid in h.groups { assert GroupOk(h.groups[op.gid]); }
      hide HostOk, StreamOk, UnexpiredInvites;
    }
  }

  // ---------------------------------------------------------------------- whole runs

  /** Any two moments of a run: both sound, and the later one further along. */
  lemma Between(hs: seq<Host>, ops: seq<Op>, i: nat, j: nat)
    requires IsRun(hs, ops) && HostOk(hs[0]) && hs[0].budget < U64_MAX && i <= j < |hs|
    ensures HostOk(hs[i]) && HostOk(hs[j]) && HostMoves(hs[i], hs[j]) && hs[j].budget < U64_MAX && hs[i].budget < U64_MAX
  {
    hide HostOk, Step, Admissible, HostMoves;
    var front, steps := hs[..j + 1], ops[..j];
    assert forall k :: 0 <= k <= j ==> front[k] == hs[k];
    assert IsRun(front, steps);
    LaterMoves(front, steps, i);
    LaterMoves(front, steps, 0);
    BudgetFixed(hs[0], hs[j]);
    BudgetFixed(hs[i], hs[j]);
  }

  lemma {:induction false} InviteStands(hs: seq<Host>, ops: seq<Op>, gid: Key, nonce: Key, inv: Invite, i: nat, j: nat)
    requires IsRun(hs, ops) && HostOk(hs[0]) && hs[0].budget < U64_MAX && i <= j < |hs|
    requires gid in hs[i].groups && Get(hs[i].groups[gid].invites, nonce) == Some(inv)
    requires forall k :: i <= k < j ==> !Restores(hs[k], ops[k], gid, nonce) && !Redeems(ops[k], gid, nonce)
    ensures gid in hs[j].groups
    ensures Get(hs[j].groups[gid].invites, nonce) == Some(inv)
            || (Get(hs[j].groups[gid].invites, nonce) == None && hs[j].now >= inv.expiresAt)
    decreases j
  {
    hide HostOk, Step, Restores, Redeems, GroupMoves, Admissible;
    if j > i {
      InviteStands(hs, ops, gid, nonce, inv, i, j - 1);
      Between(hs, ops, j - 1, j);
      InviteMoves(hs[j - 1], ops[j - 1], gid, nonce);
    }
  }

  /**
   The life of an invite. Stored with a lifetime of `ttl` seconds, and not redeemed or replaced since, it can be redeemed
   at any later moment of the run if and only if those seconds have not passed.
   */
  lemma InviteLife(hs: seq<Host>, ops: seq<Op>, i: nat, j: nat)
    requires IsRun(hs, ops) && HostOk(hs[0]) && hs[0].budget < U64_MAX && i < j < |ops|
    requires ops[i].OpStoreInvite? && StoreInvite(hs[i], ops[i].gid, ops[i].m, ops[i].inv).1.Ok?
    requires Redeems(ops[j], ops[i].gid, ops[i].inv.nonce)
    requires forall k :: i < k < j ==>
               !Restores(hs[k], ops[k], ops[i].gid, ops[i].inv.nonce) && !Redeems(ops[k], ops[i].gid, ops[i].inv.nonce)
    ensures Accept(hs[j], ops[j].gid, ops[j].nonce, ops[j].cid, ops[j].secret, ops[j].pid).1.Ok?
            <==> hs[j].now < Min(hs[i].now + ops[i].inv.ttl, U64_MAX)
  {
    var gid, inv := ops[i].gid, ops[i].inv;
    Between(hs, ops, i, i + 1);
    StoreInviteExactly(hs[i], gid, ops[i].m, inv);
    assert hs[i + 1] == StoreInvite(hs[i], gid, ops[i].m, inv).0;
    hide Step, HostOk, HostMoves, Admissible, StoreInvite;
    InviteStands(hs, ops, gid, inv.nonce, Invite(Min(hs[i].now + inv.ttl, U64_MAX), inv.binding, inv.salt), i + 1, j);
    AcceptExactly(hs[j], gid, inv.nonce, ops[j].cid, ops[j].secret, ops[j].pid);
    hide Accept;
  }

  lemma {:induction false} PendingStands(hs: seq<Host>, ops: seq<Op>, gid: Key, pid: Key, p: Pending, i: nat, j: nat)
    requires IsRun(hs, ops) && HostOk(hs[0]) && hs[0].budget < U64_MAX && i <= j < |hs|
    requires gid in hs[i].groups && Get(hs[i].groups[gid].pending, pid) == Some(p)
    requires forall k :: i <= k < j ==> !Admits(hs[k], ops[k], gid, pid) && !Mints(ops[k], gid, pid)
    ensures gid in hs[j].groups
    ensures Get(hs[j].groups[gid].pending, pid) == Some(p)
            || (Get(hs[j].groups[gid].pending, pid) == None && hs[j].now >= p.expiresAt)
    decreases j
  {
    hide HostOk, Step, Admits, Mints, GroupMoves, Admissible;
    if j > i {
      PendingStands(hs, ops, gid, pid, p, i, j - 1);
      Between(hs, ops, j - 1, j);
      PendingMoves(hs[j - 1], ops[j - 1], gid, pid);
    }
  }

  /** An admission that finds its pending join in time makes exactly that credential live. */
  lemma AdmitExactly(h: Host, gid: Key, m: MemberCred, admit: AdmitObject, pk: Key, fanout: Fanout)
    requires HostOk(h) && gid in h.groups
    ensures var (h', r) := Admit(h, gid, m, admit, pk, fanout); var g := h.groups[gid];
            && (r.Ok? <==> Admits(h, OpAdmit(gid, m, admit, pk, fanout), gid, admit.pid)
                           && admit.pid in g.pending && h.now < g.pending[admit.pid].expiresAt)
            && (r.Ok? ==> && r.value == g.pending[admit.pid].cid && r.value in g.creds
                          && gid in h'.groups && SameElsewhere(h, h', gid) && h'.files == h.files
                          && h'.groups[gid].creds == g.creds[r.value := Cred(g.creds[r.value].secret, true, Some(pk), Some(fanout))]
                          && h'.groups[gid].stream == g.stream && admit.pid !in h'.groups[gid].pending)
  {
    assert GroupOk(h.groups[gid]);
    hide HostOk, StreamOk, UnexpiredInvites;
  }

  /**
   The life of a joiner. Between redeeming an invite and being admitted a credential is reserved and not live. The first
   signed admission by a live member makes it live, with the secret from the redemption and the key and target given, if
   and only if the invite's seconds have not passed by then.
   */
  lemma JoinLife(hs: seq<Host>, ops: seq<Op>, j: nat, n: nat)
    requires IsRun(hs, ops) && HostOk(hs[0]) && hs[0].budget < U64_MAX && j < n < |ops|
    requires ops[j].OpAccept? && Accept(hs[j], ops[j].gid, ops[j].nonce, ops[j].cid, ops[j].secret, ops[j].pid).1.Ok?
    requires Admits(hs[n], ops[n], ops[j].gid, ops[j].pid)
    requires forall k :: j < k < n ==> !Admits(hs[k], ops[k], ops[j].gid, ops[j].pid) && !Mints(ops[k], ops[j].gid, ops[j].pid)
    ensures ops[j].gid in hs[j].groups && ops[j].nonce in hs[j].groups[ops[j].gid].invites
    ensures var gid, cid := ops[j].gid, ops[j].cid;
            var inv := hs[j].groups[gid].invites[ops[j].nonce];
            var r := Admit(hs[n], gid, ops[n].m, ops[n].admit, ops[n].joinerPk, ops[n].fanout).1;
            && (r.Ok? <==> hs[n].now < inv.expiresAt)
            && (r.Ok? ==> && r.value == cid && gid in hs[n].groups && gid in hs[n + 1].groups
                          && Get(hs[n].groups[gid].creds, cid) == Some(Cred(ops[j].secret, false, None, None))
                          && Get(hs[n + 1].groups[gid].creds, cid)
                             == Some(Cred(ops[j].secret, true, Some(ops[n].joinerPk), Some(ops[n].fanout))))
  {
    var gid, cid, pid := ops[j].gid, ops[j].cid, ops[j].pid;
    AcceptExactly(hs[j], gid, ops[j].nonce, cid, ops[j].secret, pid);
    assert hs[j + 1] == Accept(hs[j], gid, ops[j].nonce, cid, ops[j].secret, pid).0;
    hide Accept, Step, Admissible, HostOk, HostMoves;
    var inv := hs[j].groups[gid].invites[ops[j].nonce];
    var p := Pending(cid, ops[j].secret, inv.expiresAt, inv.binding, inv.salt);
    PendingStands(hs, ops, gid, pid, p, j + 1, n);
    Between(hs, ops, j + 1, n);
    assert hs[n + 1] == Admit(hs[n], gid, ops[n].m, ops[n].admit, ops[n].joinerPk, ops[n].fanout).0 by { AdmitStep(hs[n], ops[n]); }
    AdmitExactly(hs[n], gid, ops[n].m, ops[n].admit, ops[n].joinerPk, ops[n].fanout);
    hide Admit;
    if Get(hs[n].groups[gid].pending, pid) == Some(p) {
      StillReserved(hs[j + 1], hs[n], gid, cid, pid);
    }
  }

  lemma AdmitStep(h: Host, op: Op)
    requires op.OpAdmit?
    ensures Step(h, op) == Admit(h, op.gid, op.m, op.admit, op.joinerPk, op.fanout).0
  {
    hide Admit;
  }

  lemma StillReserved(h: Host, h': Host, gid: Key, cid: Key, pid: Key)
    requires HostOk(h') && HostMoves(h, h') && gid in h.groups && gid in h'.groups
    requires cid in h.groups[gid].creds && IsReserved(h.groups[gid].creds[cid])
    requires pid in h'.groups[gid].pending && h'.groups[gid].pending[pid].cid == cid
    ensures Get(h'.groups[gid].creds, cid) == Some(Cred(h.groups[gid].creds[cid].secret, false, None, None))
  {
    assert GroupOk(h'.groups[gid]) && GroupMoves(h.groups[gid], h'.groups[gid]);
    hide StreamOk, BudgetOk, FilesOk;
    assert CredMoves(h.groups[gid].creds[cid], h'.groups[gid].creds[cid]);
    assert CredOk(h'.groups[gid].creds[cid]);
  }

  // --------------------------------------------------------------------------- files

  /** Uploading: only the reserving member, in time, once, with exactly the reserved size; and only that slot changes. */
  lemma UploadExactly(h: Host, gid: Key, m: MemberCred, token: Key, body: Body)
    ensures var (h', r) := Upload(h, gid, m, token, body);
            && (r.Ok? <==> IsMember(h, gid, m) && token in h.files && h.files[token].gid == gid && h.files[token].owner == m.cid
                           && h.now < h.files[token].expiresAt && h.files[token].bytes == None && body.len == h.files[token].size)
            && (r.Ok? ==> h'.groups == h.groups && h'.now == h.now && h'.budget == h.budget
                          && h'.files == h.files[token := h.files[token].(bytes := Some(body))])
            && (r.Err? ==> h' == h)
  {
  }

  predicate Uploads(h: Host, op: Op, token: Key) {
    op.OpUpload? && op.token == token && Upload(h, op.gid, op.m, token, op.body).1.Ok?
  }

  /** Nothing but an upload touches a slot. */
  lemma SlotStands(h: Host, op: Op, token: Key)
    requires token in h.files && h.budget < U64_MAX && !Uploads(h, op, token)
    ensures Get(Step(h, op).files, token) == Get(h.files, token)
  {
    hide Append, HostRevocation, Upload;
    match op
    case OpAppend(x, m, kind, body, parsed, bad) => AppendExactly(h, x, m, kind, body, parsed, bad);
    case OpHostRevocation(x, body, bad) => HostRevocationExactly(h, x, body, bad);
    case OpUpload(x, m, t, body) => UploadExactly(h, x, m, t, body);
    case _ =>
  }

  lemma {:induction false} SlotKept(hs: seq<Host>, ops: seq<Op>, token: Key, i: nat, j: nat)
    requires IsRun(hs, ops) && HostOk(hs[0]) && hs[0].budget < U64_MAX && i <= j < |hs| && token in hs[i].files
    requires forall k :: i <= k < j ==> !Uploads(hs[k], ops[k], token)
    ensures Get(hs[j].files, token) == Get(hs[i].files, token)
    decreases j
  {
    hide HostOk, Step, Uploads, HostMoves, Admissible;
    if j > i {
      SlotKept(hs, ops, token, i, j - 1);
      Between(hs, ops, j - 1, j);
      SlotStands(hs[j - 1], ops[j - 1], token);
    }
  }

  /** A slot once filled is never filled again. */
  lemma FilledForGood(hs: seq<Host>, ops: seq<Op>, token: Key, i: nat, j: nat)
    requires IsRun(hs, ops) && HostOk(hs[0]) && hs[0].budget < U64_MAX && i <= j < |hs|
    requires token in hs[i].files && hs[i].files[token].bytes.Some?
    ensures Get(hs[j].files, token) == Some(hs[i].files[token])
  {
    Between(hs, ops, i, j);
    hide HostOk, Step, Admissible, GroupMoves;
  }

  /** The slot a reservation opens. */
  function Opened(h: Host, op: Op): Slot
    requires op.OpAppend? && op.parsed.ReserveMsg?
  {
    Slot(op.gid, op.m.cid, SlotSize(op.parsed.bucket), Min(h.now + SlotTime(op.parsed.ttl), U64_MAX), None)
  }

  predicate Reserves(op: Op) {
    op.OpAppend? && op.kind == Reserve && op.parsed.ReserveMsg?
  }

  lemma ReservationOpens(h: Host, op: Op)
    requires h.budget < U64_MAX && Reserves(op) && Append(h, op.gid, op.m, Reserve, op.body, op.parsed, op.bad).1.Ok?
    ensures Get(Step(h, op).files, op.parsed.token) == Some(Opened(h, op))
  {
    AppendExactly(h, op.gid, op.m, Reserve, op.body, op.parsed, op.bad);
    assert Step(h, op) == Append(h, op.gid, op.m, Reserve, op.body, op.parsed, op.bad).0 by { hide Append; }
    hide Append, Step, MayAppend, HasRoom, Sealable, CopiesAre, CredsAfter, StreamAfter, SameElsewhere;
  }

  /**
   The life of a file, first half: an upload into a reserved slot succeeds if and only if it comes from the credential
   that reserved it, while that is live, for the same group, before the slot's seconds have passed, with exactly the
   reserved number of bytes, and no upload succeeded before.
   */
  lemma UploadLife(hs: seq<Host>, ops: seq<Op>, i: nat, j: nat)
    requires IsRun(hs, ops) && HostOk(hs[0]) && hs[0].budget < U64_MAX && i < j < |ops|
    requires Reserves(ops[i]) && Append(hs[i], ops[i].gid, ops[i].m, Reserve, ops[i].body, ops[i].parsed, ops[i].bad).1.Ok?
    requires ops[j].OpUpload? && ops[j].token == ops[i].parsed.token
    ensures var token, up := ops[j].token, ops[j];
            Upload(hs[j], up.gid, up.m, token, up.body).1.Ok? <==>
            && up.gid == ops[i].gid && up.m.cid == ops[i].m.cid && IsMember(hs[j], up.gid, up.m)
            && hs[j].now < Min(hs[i].now + SlotTime(ops[i].parsed.ttl), U64_MAX)
            && up.body.len == SlotSize(ops[i].parsed.bucket)
            && forall k :: i < k < j ==> !Uploads(hs[k], ops[k], token)
  {
    var token, up := ops[j].token, ops[j];
    Between(hs, ops, i, j);
    ReservationOpens(hs[i], ops[i]);
    UploadExactly(hs[j], up.gid, up.m, token, up.body);
    hide Append, Upload, Step, HostOk, HostMoves, Admissible;
    if k :| i < k < j && Uploads(hs[k], ops[k], token) {
      Between(hs, ops, k, k + 1);
      FilledBy(hs[k], ops[k], token);
      FilledForGood(hs, ops, token, k + 1, j);
    } else {
      SlotKept(hs, ops, token, i + 1, j);
    }
  }

  lemma FilledBy(h: Host, op: Op, token: Key)
    requires Uploads(h, op, token)
    ensures token in h.files && Get(Step(h, op).files, token) == Some(h.files[token].(bytes := Some(op.body)))
  {
    UploadExactly(h, op.gid, op.m, token, op.body);
    hide Upload;
  }

  /**
   Second half: once uploaded, the file is what a download returns at every later moment, to any live member of that
   group and to nobody else, until the slot's seconds have passed.
   */
  lemma DownloadLife(hs: seq<Host>, ops: seq<Op>, j: nat, n: nat, gid: Key, m: MemberCred)
    requires IsRun(hs, ops) && HostOk(hs[0]) && hs[0].budget < U64_MAX && j < n < |hs|
    requires ops[j].OpUpload? && Uploads(hs[j], ops[j], ops[j].token)
    ensures ops[j].token in hs[j].files
    ensures FetchFile(hs[n], gid, m, ops[j].token)
            == if gid == ops[j].gid && IsMember(hs[n], gid, m) && hs[n].now < hs[j].files[ops[j].token].expiresAt
               then Ok(ops[j].body) else Err(Denied)
  {
    var token := ops[j].token;
    UploadExactly(hs[j], ops[j].gid, ops[j].m, token, ops[j].body);
    FilledBy(hs[j], ops[j], token);
    hide Upload, Step, Admissible, HostOk;
    FilledForGood(hs, ops, token, j + 1, n);
  }

  /** Adding a slot adds its bytes to its own group while it has not expired, and to no other. */
  lemma SlotsCount(files: map<Key, Slot>, t: Key, s: Slot, gid: Key, now: nat)
    requires t !in files
    ensures LiveBytes(map[], gid, now) == 0
    ensures LiveBytes(files[t := s], gid, now)
            == LiveBytes(files, gid, now) + (if s.gid == gid && now < s.expiresAt then s.size else 0)
  {
    LiveBytesRemove(files[t := s], gid, now, t);
    assert files[t := s] - {t} == files;
  }

  // ---------------------------------------------------------------- founding and moving

  /** Founding a group: one live credential and nothing else, unless the owner has 64 groups. */
  lemma CreateExactly(h: Host, gid: Key, cid: Key, secret: Key, pk: Key, fanout: Fanout, creator: Option<Key>)
    ensures var (h', r) := Create(h, gid, cid, secret, pk, fanout, creator);
            && (r.Ok? <==> creator == None || |set x | x in h.groups && h.groups[x].creator == creator| < 64)
            && (r.Ok? ==> && gid in h'.groups && SameElsewhere(h, h', gid) && h'.files == h.files
                          && h'.groups[gid] == Group(1, map[cid := Cred(secret, true, Some(pk), Some(fanout))],
                                                     map[], map[], 0, [], creator))
            && (r.Err? ==> h' == h)
  {
    if creator.Some? {
      assert (set x | x in h.groups && h.groups[x].creator == creator) == OwnedGroups(h.groups, creator.value);
    }
  }

  /** Moving house: a live member replaces its own target and nothing else. */
  lemma RefreshExactly(h: Host, gid: Key, m: MemberCred, fanout: Fanout)
    ensures var (h', r) := RefreshFanout(h, gid, m, fanout);
            && (r.Ok? <==> IsMember(h, gid, m))
            && (r.Ok? ==> && gid in h'.groups && SameElsewhere(h, h', gid) && h'.files == h.files
                          && var g := h.groups[gid];
                             h'.groups[gid] == g.(creds := g.creds[m.cid := Cred(g.creds[m.cid].secret, true, g.creds[m.cid].signingPk, Some(fanout))]))
            && (r.Err? ==> h' == h)
  {
  }
}
