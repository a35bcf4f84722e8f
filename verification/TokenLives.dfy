/**
 How long capabilities live. Exactly which operation takes a capability away, in seconds; and from it the whole life of
 a share token: when it lets an append through, at any moment of any run.
 */
module TokenLives {
  import opened Basics
  import opened HomeState
  import opened HomeRun
  import opened HomeJournal
  import opened Retention
  import opened TokenMoves
  import Lifetimes

  // ------------------------------------------------------------------- one operation

  /** Row `i` is a contact capability, and another of its mailbox has a later window, or the same and stands later. */
  ghost predicate Outranked(ts: seq<TokenRow>, i: nat)
    requires i < |ts| && ts[i].kind.Contact?
  {
    exists j :: 0 <= j < |ts| && ts[j].kind.Contact? && ts[j].kind.mailbox == ts[i].kind.mailbox
                && (ts[j].kind.windowStart > ts[i].kind.windowStart
                    || (ts[j].kind.windowStart == ts[i].kind.windowStart && j > i))
  }

  /**
   What a sweep takes: a share token a day after it expired, or a week after if it holds a prekey; a contact capability
   that is not the newest, has no grace left, and was idle for thirty days.
   */
  ghost predicate Spent(ts: seq<TokenRow>, i: nat, now: nat)
    requires i < |ts|
  {
    match ts[i].kind
    case Share(_, expiresAt, _, reserved) => now > Min(expiresAt + (if reserved.Some? then 604800 else 86400), U64_MAX)
    case Contact(_, grace, start, _) => Outranked(ts, i) && (grace.None? || now >= grace.value) && now - start > 2592000
  }

  /** The operation sweeps this mailbox. */
  predicate Sweeps(h: Home, op: Op, o: Key) {
    || op == OpSweep || op == OpSweepFor(o)
    || (op.OpMintContact? && op.owner == o && Enabled(h, o))
    || (op.OpRotateContact? && op.owner == o && Enabled(h, o))
  }

  lemma SpentIsDead(h: Home, i: nat)
    requires Valid(h) && i < |h.tokens|
    ensures Reclaimable(h, i) <==> Spent(h.tokens, i, h.now)
  {
    hide MailboxesOk, DirectoryOk, PrekeysOk, MembershipsOk;
    if h.tokens[i].kind.Contact? { NewestIsTop(h.tokens, i); }
    hide Newest, Outranked;
  }

  lemma NewestIsTop(ts: seq<TokenRow>, i: nat)
    requires i < |ts| && ts[i].kind.Contact?
    ensures Newest(ts, i) <==> !Outranked(ts, i)
  {
  }

  /** The token is in the swept set exactly if its row is spent. */
  lemma SweptWhen(h: Home, i: nat, o: Key)
    requires Valid(h) && i < |h.tokens|
    ensures h.tokens[i].token in DeadTokens(h) <==> Spent(h.tokens, i, h.now)
    ensures h.tokens[i].token in DeadFor(h, o) <==> h.tokens[i].kind.mailbox == o && Spent(h.tokens, i, h.now)
  {
    ValidDistinct(h);
    SpentIsDead(h, i);
    hide Valid, Spent;
    hide Reclaimable;
  }

  /** What becomes of row `i`'s token in an operation: when it is taken away. */
  ghost predicate Goes(h: Home, op: Op, i: nat)
    requires i < |h.tokens|
  {
    var o := h.tokens[i].kind.mailbox;
    Lifetimes.Closes(h, op, o) || (Sweeps(h, op, o) && Spent(h.tokens, i, h.now))
  }

  lemma SweepTakes(h: Home, op: Op, i: nat)
    requires Valid(h) && i < |h.tokens| && (op.OpSweepFor? || op.OpSweep?)
    ensures MemToken(Step(h, op).tokens, h.tokens[i].token).None? <==> Goes(h, op, i)
  {
    ValidDistinct(h);
    MemTokenAt(h.tokens, i);
    var t := h.tokens[i].token;
    hide Valid, Spent, DeadFor, DeadTokens, Without, MemToken, DistinctTokens;
    SweepStep(h, op);
    hide Step;
    if op.OpSweepFor? {
      SweptWhen(h, i, op.owner);
      MemTokenWithout(h.tokens, DeadFor(h, op.owner), t);
    } else {
      SweptWhen(h, i, 0);
      MemTokenWithout(h.tokens, DeadTokens(h), t);
    }
  }

  lemma SweepStep(h: Home, op: Op)
    requires op.OpSweepFor? || op.OpSweep?
    ensures Step(h, op).tokens == Without(h.tokens, if op.OpSweepFor? then DeadFor(h, op.owner) else DeadTokens(h))
  {
    hide DeadFor, DeadTokens, Without;
  }

  lemma MintTakes(h: Home, owner: Key, token: Key, i: nat)
    requires Valid(h) && i < |h.tokens| && token !in Held(h.tokens)
    ensures MemToken(MintContact(h, owner, token).0.tokens, h.tokens[i].token).None?
            <==> Enabled(h, owner) && h.tokens[i].kind.mailbox == owner && Spent(h.tokens, i, h.now)
  {
    ValidDistinct(h);
    MemTokenAt(h.tokens, i);
    var t := h.tokens[i].token;
    assert t in Held(h.tokens);
    if Enabled(h, owner) {
      SweptWhen(h, i, owner);
      var gone := DeadFor(h, owner);
      HeldWithout(h, gone);
      TokensWithout(h.tokens, gone);
      MemTokenWithout(h.tokens, gone, t);
      MemTokenPush(Without(h.tokens, gone), TokenRow(token, Contact(owner, None, h.now, 0)), t);
    }
    hide Valid, Spent, DeadFor, Without, MemToken, Held, DistinctTokens;
  }

  lemma RotateTakes(h: Home, owner: Key, oldToken: Key, confirm: bool, token: Key, i: nat)
    requires Valid(h) && i < |h.tokens| && token !in Held(h.tokens)
    ensures MemToken(RotateContact(h, owner, oldToken, confirm, token).0.tokens, h.tokens[i].token).None?
            <==> Enabled(h, owner) && h.tokens[i].kind.mailbox == owner && Spent(h.tokens, i, h.now)
  {
    hide Valid, MintContact, Spent, Held, MemToken, DistinctTokens, SetKind;
    MintTakes(h, owner, token, i);
    MintDistinct(h, owner, token);
    GraceSpares(MintContact(h, owner, token).0, oldToken, h.tokens[i].token);
    hide LastIndex, Enabled;
  }

  /** Setting a grace deadline takes no token away and brings none back. */
  lemma GraceSpares(h: Home, oldToken: Key, t: Key)
    requires DistinctTokens(h.tokens)
    ensures var k := LastIndex(h.tokens, oldToken);
            k >= 0 && h.tokens[k].kind.Contact? ==>
              var kind := h.tokens[k].kind.(graceUntil := Some(h.now + CONTACT_GRACE_SECS));
              MemToken(TouchToken(h, k, kind).tokens, t).None? <==> MemToken(h.tokens, t).None?
  {
    var k := LastIndex(h.tokens, oldToken);
    if k >= 0 && h.tokens[k].kind.Contact? {
      MemTokenAt(h.tokens, k);
      MemTokenSet(h.tokens, k, h.tokens[k].kind.(graceUntil := Some(h.now + CONTACT_GRACE_SECS)), t);
    }
    hide MemToken, SetKind, DistinctTokens;
  }

  lemma MintDistinct(h: Home, owner: Key, token: Key)
    requires Valid(h) && token !in Held(h.tokens)
    ensures DistinctTokens(MintContact(h, owner, token).0.tokens)
  {
    MintValid(h, owner, token);
    ValidDistinct(MintContact(h, owner, token).0);
    hide Valid, MintContact, DistinctTokens, Held;
  }

  lemma DisableTakes(h: Home, id: Key, i: nat)
    requires DistinctTokens(h.tokens) && i < |h.tokens|
    ensures MemToken(Disable(h, id).tokens, h.tokens[i].token).None? <==> h.tokens[i].kind.mailbox == id
  {
    MemTokenAt(h.tokens, i);
    MemTokenWithoutOwner(h.tokens, id, h.tokens[i].token);
    hide MemToken, WithoutOwner, DistinctTokens, Trim;
  }

  lemma ObserveTakes(h: Home, id: Key, b: Binding, v: bool, i: nat)
    requires Valid(h) && i < |h.tokens|
    ensures MemToken(ObserveBinding(h, id, b, v).0.tokens, h.tokens[i].token).None?
            <==> Lifetimes.Closes(h, OpObserveBinding(id, b, v), h.tokens[i].kind.mailbox)
  {
    OwnerKnown(h, i);
    ValidDistinct(h);
    MemTokenAt(h.tokens, i);
    MemTokenWithoutOwner(h.tokens, id, h.tokens[i].token);
    ObservedTokens(h, id, b, v);
    hide Valid, MemToken, WithoutOwner, DistinctTokens, ObserveBinding;
  }

  lemma ObservedTokens(h: Home, id: Key, b: Binding, v: bool)
    ensures ObserveBinding(h, id, b, v).0.tokens
            == if (id in h.directory || id in h.mailboxes) && Lifetimes.Closes(h, OpObserveBinding(id, b, v), id)
               then WithoutOwner(h.tokens, id) else h.tokens
  {
    hide WithoutOwner, Trim;
  }

  lemma OwnerKnown(h: Home, i: nat)
    requires Valid(h) && i < |h.tokens|
    ensures h.tokens[i].kind.mailbox in h.mailboxes && !h.mailboxes[h.tokens[i].kind.mailbox].disabled
  {
    hide MailboxesOk, DirectoryOk, PrekeysOk, MembershipsOk;
  }

  lemma RevokeTakes(h: Home, id: Key, stmt: Blob, v: bool, i: nat)
    requires Valid(h) && i < |h.tokens|
    ensures MemToken(IngestRevocation(h, id, stmt, v).0.tokens, h.tokens[i].token).None?
            <==> Lifetimes.Closes(h, OpRevoke(id, stmt, v), h.tokens[i].kind.mailbox)
  {
    ValidDistinct(h);
    MemTokenAt(h.tokens, i);
    hide Valid, MemToken, Disable, DistinctTokens;
    if id in h.directory {
      DisableTakes(h.(directory := h.directory[id := h.directory[id].(revocation := Some(stmt))],
                      dirty := h.dirty.(identities := h.dirty.identities + {id})), id, i);
    }
  }

  lemma FetchSpares(h: Home, token: Key, i: nat)
    requires Valid(h) && i < |h.tokens|
    ensures MemToken(FetchPrekey(h, token).0.tokens, h.tokens[i].token).Some?
  {
    ValidDistinct(h);
    MemTokenAt(h.tokens, i);
    hide Valid, MemToken, DistinctTokens, ShareUsable;
    var k := LastIndex(h.tokens, token);
    if k >= 0 && h.tokens[k].kind.Share? {
      var kind := h.tokens[k].kind;
      if kind.mailbox in h.prekeys && h.prekeys[kind.mailbox] != [] {
        MemTokenSet(h.tokens, k, kind.(reserved := Some(h.prekeys[kind.mailbox][0])), h.tokens[i].token);
      }
    }
    hide LastIndex, SetKind;
  }

  lemma RegisterSpares(h: Home, op: Op, i: nat)
    requires Valid(h) && i < |h.tokens| && (op.OpRegisterShare? || op.OpRegisterCard?)
    ensures MemToken(Step(h, op).tokens, h.tokens[i].token).Some?
  {
    hide Valid, Register, NewMailbox;
    match op
    case OpRegisterShare(o, t, ttl) => PushSpares(h, RegisterShare(h, o, t, ttl).0, i);
    case OpRegisterCard(card, v) => CardSpares(h, card, v, i); hide RegisterFromCard;
  }

  lemma PushSpares(h: Home, h': Home, i: nat)
    requires i < |h.tokens|
    ensures h.tokens <= h'.tokens ==> MemToken(h'.tokens, h.tokens[i].token).Some?
  {
  }

  lemma CardSpares(h: Home, card: Card, v: bool, i: nat)
    requires i < |h.tokens|
    ensures MemToken(RegisterFromCard(h, card, v).0.tokens, h.tokens[i].token).Some?
  {
    PushSpares(h, h, i);
    PushSpares(h, RegisterFromCard(h, card, v).0, i);
    hide MemToken, NewMailbox;
  }

  /** Taken away exactly by closing its mailbox, or by a sweep once it is spent; otherwise it stays in some form. */
  lemma TokenGoes(h: Home, op: Op, i: nat)
    requires Valid(h) && Admissible(h, op) && i < |h.tokens|
    ensures MemToken(Step(h, op).tokens, h.tokens[i].token).None? <==> Goes(h, op, i)
  {
    hide Valid, Step, MemToken, Admissible, AppendKind, Spent, DistinctTokens;
    if Appends(op) || KeepsTokens(op) || op.OpRegisterShare? || op.OpRegisterCard? {
      TokenSpared(h, op, i);
    } else if op.OpSweep? || op.OpSweepFor? {
      SweepTakes(h, op, i);
    } else if op.OpMintContact? || op.OpRotateContact? {
      MintOpTakes(h, op, i);
    } else {
      CloseOpTakes(h, op, i);
    }
  }

  lemma TokenSpared(h: Home, op: Op, i: nat)
    requires Valid(h) && Admissible(h, op) && i < |h.tokens|
    requires Appends(op) || KeepsTokens(op) || op.OpRegisterShare? || op.OpRegisterCard?
    ensures MemToken(Step(h, op).tokens, h.tokens[i].token).Some?
  {
    ValidDistinct(h);
    MemTokenAt(h.tokens, i);
    hide Valid, Step, MemToken, Admissible, AppendKind, DistinctTokens;
    if Appends(op) {
      AppendStepToken(h, op, h.tokens[i].token);
    } else if KeepsTokens(op) {
      QuietTokenStep(h, op);
    } else {
      RegisterSpares(h, op, i);
    }
  }

  lemma MintOpTakes(h: Home, op: Op, i: nat)
    requires Valid(h) && Admissible(h, op) && i < |h.tokens| && (op.OpMintContact? || op.OpRotateContact?)
    ensures MemToken(Step(h, op).tokens, h.tokens[i].token).None? <==> Goes(h, op, i)
  {
    hide Valid, MemToken, MintContact, RotateContact, Held, Spent;
    match op
    case OpMintContact(o, x) => MintTakes(h, o, x, i);
    case OpRotateContact(o, a, c, x) => RotateTakes(h, o, a, c, x, i);
  }

  lemma CloseOpTakes(h: Home, op: Op, i: nat)
    requires Valid(h) && i < |h.tokens| && (op.OpFetchPrekey? || op.OpObserveBinding? || op.OpRevoke?)
    ensures MemToken(Step(h, op).tokens, h.tokens[i].token).None? <==> Goes(h, op, i)
  {
    hide Valid, MemToken, FetchPrekey, ObserveBinding, IngestRevocation, Spent;
    match op
    case OpFetchPrekey(x) => FetchSpares(h, x, i);
    case OpObserveBinding(id, b, v) => ObserveTakes(h, id, b, v, i);
    case OpRevoke(id, stmt, v) => RevokeTakes(h, id, stmt, v, i);
  }

  // --------------------------------------------------------------------- share tokens

  /** A share token is registered exactly for an enabled mailbox and five minutes, half an hour (the default) or an hour. */
  lemma RegisterShareExactly(h: Home, o: Key, t: Key, ttl: Option<nat>)
    ensures RegisterShare(h, o, t, ttl).1.Ok? <==>
            o in h.mailboxes && !h.mailboxes[o].disabled && (ttl == None || ttl == Some(300) || ttl == Some(1800) || ttl == Some(3600))
  {
  }

  /** The operation opens share token `t` for mailbox `o` for so many seconds. */
  predicate Opens(h: Home, op: Op, t: Key, o: Key, secs: nat) {
    match op
    case OpRegisterShare(owner, token, ttl) =>
      owner == o && token == t && Enabled(h, o) && secs == (if ttl.Some? then ttl.value else 1800)
      && (secs == 300 || secs == 1800 || secs == 3600)
    case OpRegisterCard(card, verified) =>
      card.id == o && card.shareToken == t && verified && card.binding.serverId == h.serverId && o !in h.mailboxes && secs == 1800
    case _ => false
  }

  /** A row is stored through the token. */
  predicate Uses(h: Home, op: Op, t: Key) {
    var inner := Attempt(h, op);
    inner.Some? && inner.value.capability == t && StoresRow(h, inner.value)
  }

  /** Tokens are chosen at random: nobody mints this one again. */
  predicate Remints(op: Op, t: Key) {
    match op
    case OpRegisterShare(_, token, _) => token == t
    case OpRegisterCard(card, _) => card.shareToken == t
    case OpMintContact(_, token) => token == t
    case OpRotateContact(_, _, _, token) => token == t
    case _ => false
  }

  lemma OpensToken(h: Home, op: Op, t: Key, o: Key, secs: nat)
    requires Valid(h) && Admissible(h, op) && Opens(h, op, t, o, secs)
    ensures MemToken(Step(h, op).tokens, t) == Some(Share(o, h.now + secs, false, None))
  {
    ValidDistinct(h);
    hide Valid, DistinctTokens;
    MemTokenPush(h.tokens, TokenRow(t, Share(o, h.now + secs, false, None)), t);
    hide MemToken, Held, NewMailbox;
  }

  /** One operation on a share token that nobody mints again. */
  lemma ShareMoves(h: Home, op: Op, t: Key)
    requires Valid(h) && Admissible(h, op) && !Remints(op, t)
    ensures var before, after := MemToken(h.tokens, t), MemToken(Step(h, op).tokens, t);
            && (before.None? ==> after.None?)
            && (before.Some? && before.value.Share? ==>
                  var k := before.value;
                  if after.Some? then
                    && after.value.Share? && after.value.mailbox == k.mailbox && after.value.expiresAt == k.expiresAt
                    && after.value.burned == (k.burned || Uses(h, op, t))
                    && !Lifetimes.Closes(h, op, k.mailbox)
                  else Lifetimes.Closes(h, op, k.mailbox) || h.now > Min(k.expiresAt + 86400, U64_MAX))
  {
    hide Valid, Step, Admissible, Remints, Mints, NextKind, Goes;
    TokenStep(h, op, t);
    NotMinted(h, op, t);
    var before, after := MemToken(h.tokens, t), MemToken(Step(h, op).tokens, t);
    if before.Some? {
      var i := FirstIndex(h.tokens, t);
      assert h.tokens[i].token == t && before.value == h.tokens[i].kind;
      hide MemToken, Moves;
      TokenGoes(h, op, i);
      if before.value.Share? {
        SpentShare(h, op, i);
        if after.Some? {
          NextShare(h, op, t, before.value);
          assert after.value == NextKind(h, op, t, before.value) by { MovedKind(h, op, t, before, after); }
        }
      }
    }
  }

  lemma MovedKind(h: Home, op: Op, t: Key, before: Option<TokenKind>, after: Option<TokenKind>)
    requires Moves(h, op, t, before, after) && before.Some? && after.Some?
    ensures after.value == NextKind(h, op, t, before.value)
  {
    hide NextKind, Mints;
  }

  lemma SpentShare(h: Home, op: Op, i: nat)
    requires i < |h.tokens| && h.tokens[i].kind.Share?
    ensures var k := h.tokens[i].kind;
            && (Goes(h, op, i) ==> Lifetimes.Closes(h, op, k.mailbox) || h.now > Min(k.expiresAt + 86400, U64_MAX))
            && (!Goes(h, op, i) ==> !Lifetimes.Closes(h, op, k.mailbox))
  {
    hide Lifetimes.Closes, Sweeps;
  }

  lemma NotMinted(h: Home, op: Op, t: Key)
    requires !Remints(op, t)
    ensures Mints(h, op).Some? ==> Mints(h, op).value.token != t
  {
    hide RegisterShare;
  }

  lemma NextShare(h: Home, op: Op, t: Key, kind: TokenKind)
    requires kind.Share?
    ensures var next := NextKind(h, op, t, kind);
            next.Share? && next.mailbox == kind.mailbox && next.expiresAt == kind.expiresAt && next.burned == (kind.burned || Uses(h, op, t))
  {
    hide StoresRow;
  }

  // ------------------------------------------------------------------------ whole runs

  /** The clock is a 64-bit number and does not run backwards. */
  ghost predicate Clocked(hs: seq<Home>) {
    && (forall k :: 0 <= k < |hs| ==> hs[k].now <= U64_MAX)
    && (forall k :: 0 < k < |hs| ==> hs[k - 1].now <= hs[k].now)
  }

  ghost predicate Used(hs: seq<Home>, ops: seq<Op>, t: Key, i: nat, j: nat)
    requires j <= |ops| <= |hs|
  {
    exists k :: i <= k < j && Uses(hs[k], ops[k], t)
  }

  ghost predicate Closed(hs: seq<Home>, ops: seq<Op>, o: Key, i: nat, j: nat)
    requires j <= |ops| <= |hs|
  {
    exists k :: i <= k < j && Lifetimes.Closes(hs[k], ops[k], o)
  }

  /** The token as it stands at `j`, opened just before `i`. */
  ghost predicate Standing(hs: seq<Home>, ops: seq<Op>, t: Key, o: Key, e: nat, i: nat, j: nat)
    requires j <= |ops| <= |hs| && j < |hs|
  {
    match MemToken(hs[j].tokens, t)
    case None => Closed(hs, ops, o, i, j) || hs[j].now > e
    case Some(kind) =>
      && kind.Share? && kind.mailbox == o && kind.expiresAt == e
      && (kind.burned <==> Used(hs, ops, t, i, j)) && !Closed(hs, ops, o, i, j)
  }

  lemma {:induction false} TokenStands(hs: seq<Home>, ops: seq<Op>, t: Key, o: Key, e: nat, i: nat, j: nat)
    requires IsRun(hs, ops) && Valid(hs[0]) && Clocked(hs) && i <= j < |hs|
    requires MemToken(hs[i].tokens, t) == Some(Share(o, e, false, None))
    requires forall k :: i <= k < j ==> !Remints(ops[k], t)
    ensures Standing(hs, ops, t, o, e, i, j)
    decreases j
  {
    hide Valid, Step, Admissible, Remints, Uses, Lifetimes.Closes, MemToken;
    if j > i {
      TokenStands(hs, ops, t, o, e, i, j - 1);
      RunValid(hs, ops);
      ShareMoves(hs[j - 1], ops[j - 1], t);
      OneMore(hs, ops, t, o, i, j);
      hide Used, Closed;
      assert hs[j - 1].now <= hs[j].now && hs[j - 1].now <= U64_MAX;
    }
  }

  lemma OneMore(hs: seq<Home>, ops: seq<Op>, t: Key, o: Key, i: nat, j: nat)
    requires i < j <= |ops| <= |hs|
    ensures Used(hs, ops, t, i, j) <==> Used(hs, ops, t, i, j - 1) || Uses(hs[j - 1], ops[j - 1], t)
    ensures Closed(hs, ops, o, i, j) <==> Closed(hs, ops, o, i, j - 1) || Lifetimes.Closes(hs[j - 1], ops[j - 1], o)
  {
    hide Uses, Lifetimes.Closes;
  }

  /** When a share token lets an append through. */
  lemma ShareAuthorizes(h: Home, t: Key, o: Key)
    requires Valid(h) && (MemToken(h.tokens, t).Some? ==> MemToken(h.tokens, t).value.Share?)
    ensures AuthorizeAppend(h, t).1 == Ok(o) <==>
            var m := MemToken(h.tokens, t); m.Some? && m.value.mailbox == o && !m.value.burned && h.now < m.value.expiresAt
    ensures AuthorizeAppend(h, t).1.Ok? || AuthorizeAppend(h, t).1 == Err(Denied)
  {
    ValidDistinct(h);
    LastIsFirst(h.tokens, t);
    if LastIndex(h.tokens, t) >= 0 { OwnerKnown(h, LastIndex(h.tokens, t)); }
    hide Valid, MemToken, LastIndex, DistinctTokens;
  }

  /**
   The life of a share token. Opened for so many seconds, and never minted again, it lets an append to its mailbox through
   at any later moment of the run if and only if those seconds have not passed, no row was stored through it before, and
   the mailbox was not closed. Sweeps make no difference.
   */
  lemma ShareLife(hs: seq<Home>, ops: seq<Op>, t: Key, o: Key, secs: nat, i: nat, j: nat)
    requires IsRun(hs, ops) && Valid(hs[0]) && Clocked(hs) && i < j < |hs| && Opens(hs[i], ops[i], t, o, secs)
    requires forall k :: i < k < j ==> !Remints(ops[k], t)
    ensures AuthorizeAppend(hs[j], t).1
            == if hs[j].now < hs[i].now + secs && !Used(hs, ops, t, i + 1, j) && !Closed(hs, ops, o, i + 1, j)
               then Ok(o) else Err(Denied)
  {
    RunValid(hs, ops);
    hide Valid, Step, Admissible, Remints, MemToken, AuthorizeAppend, Clocked;
    OpensToken(hs[i], ops[i], t, o, secs);
    TokenStands(hs, ops, t, o, hs[i].now + secs, i + 1, j);
    hide Used, Closed, Opens;
    ShareAuthorizes(hs[j], t, o);
    OnlyItsOwner(hs[j], t);
  }

  lemma OnlyItsOwner(h: Home, t: Key)
    requires Valid(h)
    ensures AuthorizeAppend(h, t).1.Ok? ==> MemToken(h.tokens, t).Some? && AuthorizeAppend(h, t).1.value == MemToken(h.tokens, t).value.mailbox
  {
    ValidDistinct(h);
    LastIsFirst(h.tokens, t);
    hide Valid, MemToken, LastIndex, DistinctTokens, SetKind;
  }

  // --------------------------------------------------------------- contact capabilities

  /** What a contact capability lets through: within its grace, and thirty appends per window of sixty seconds. */
  lemma ContactAuthorizes(h: Home, t: Key)
    requires Valid(h) && MemToken(h.tokens, t).Some? && MemToken(h.tokens, t).value.Contact?
    ensures var c := MemToken(h.tokens, t).value;
            AuthorizeAppend(h, t).1 == if (c.graceUntil.Some? ==> h.now < c.graceUntil.value)
                                          && (h.now - c.windowStart >= 60 || c.windowCount < 30)
                                       then Ok(c.mailbox) else Err(Denied)
  {
    ValidDistinct(h);
    LastIsFirst(h.tokens, t);
    if LastIndex(h.tokens, t) >= 0 { OwnerKnown(h, LastIndex(h.tokens, t)); }
    hide Valid, MemToken, LastIndex, DistinctTokens, SetKind;
  }

  /** Rotation: the new capability is open at once; a confirmed old one of this mailbox has three more days. */
  lemma RotateExactly(h: Home, owner: Key, oldToken: Key, confirm: bool, token: Key)
    requires Valid(h) && token !in Held(h.tokens) && oldToken != token
    ensures var (h', r) := RotateContact(h, owner, oldToken, confirm, token);
            && (r.Ok? <==> owner in h.mailboxes && !h.mailboxes[owner].disabled)
            && (r.Ok? ==> MemToken(h'.tokens, token) == Some(Contact(owner, None, h.now, 0)))
            && (var old_, new_ := MemToken(h.tokens, oldToken), MemToken(h'.tokens, oldToken);
                r.Ok? && old_.Some? && new_.Some? ==>
                  new_.value == if confirm && old_.value.Contact? && old_.value.mailbox == owner
                                then Contact(owner, Some(h.now + 259200), old_.value.windowStart, old_.value.windowCount)
                                else old_.value)
  {
    hide Valid, RotateContact, MemToken, Held;
    RotateReply(h, owner, oldToken, confirm, token);
    if Enabled(h, owner) {
      RotatedNew(h, owner, oldToken, confirm, token);
      RotatedOld(h, owner, oldToken, confirm, token);
    }
  }

  lemma RotatedNew(h: Home, owner: Key, oldToken: Key, confirm: bool, token: Key)
    requires Valid(h) && token !in Held(h.tokens) && oldToken != token && Enabled(h, owner)
    ensures MemToken(RotateContact(h, owner, oldToken, confirm, token).0.tokens, token) == Some(Contact(owner, None, h.now, 0))
  {
    NotHeld(h.tokens, token);
    hide Valid, RotateContact, MemToken, Held, NextKind;
    RotateToken(h, owner, oldToken, confirm, token, token);
    RotateTokenKept(h, owner, oldToken, confirm, token);
  }

  lemma RotatedOld(h: Home, owner: Key, oldToken: Key, confirm: bool, token: Key)
    requires Valid(h) && token !in Held(h.tokens) && Enabled(h, owner)
    ensures var old_ := MemToken(h.tokens, oldToken);
            var new_ := MemToken(RotateContact(h, owner, oldToken, confirm, token).0.tokens, oldToken);
            old_.Some? && new_.Some? ==>
              new_.value == if confirm && old_.value.Contact? && old_.value.mailbox == owner
                            then Contact(owner, Some(h.now + 259200), old_.value.windowStart, old_.value.windowCount)
                            else old_.value
  {
    hide Valid, RotateContact, MemToken, Held, Mints;
    RotateToken(h, owner, oldToken, confirm, token, oldToken);
  }

  lemma NotHeld(ts: seq<TokenRow>, t: Key)
    requires t !in Held(ts)
    ensures MemToken(ts, t) == None
  {
  }

  lemma RotateReply(h: Home, owner: Key, oldToken: Key, confirm: bool, token: Key)
    ensures RotateContact(h, owner, oldToken, confirm, token).1.Ok? <==> Enabled(h, owner)
  {
    hide SweepFor, LastIndex, SetKind;
  }

  /** The minted capability is in the list. */
  lemma RotateTokenKept(h: Home, owner: Key, oldToken: Key, confirm: bool, token: Key)
    requires Valid(h) && token !in Held(h.tokens) && Enabled(h, owner)
    ensures MemToken(RotateContact(h, owner, oldToken, confirm, token).0.tokens, token).Some?
  {
    hide Valid, MintContact, Held, MemToken, DistinctTokens, SetKind, LastIndex, Enabled;
    MintToken(h, owner, token, token);
    MintDistinct(h, owner, token);
    RotatedLookup(h, owner, oldToken, confirm, token, token);
  }

  lemma RotatedLookup(h: Home, owner: Key, oldToken: Key, confirm: bool, token: Key, t: Key)
    requires DistinctTokens(MintContact(h, owner, token).0.tokens)
    ensures MemToken(RotateContact(h, owner, oldToken, confirm, token).0.tokens, t).None?
            <==> MemToken(MintContact(h, owner, token).0.tokens, t).None?
  {
    hide MintContact, MemToken, DistinctTokens, SetKind, LastIndex;
    GraceSpares(MintContact(h, owner, token).0, oldToken, t);
  }

  // -------------------------------------------------------------------------- prekeys

  /** What a prekey fetch answers: through a share token in force, its reservation, or else the head of the queue. */
  lemma PrekeyAnswer(h: Home, t: Key)
    requires Valid(h)
    ensures var m := MemToken(h.tokens, t);
            FetchPrekey(h, t).1
            == if m.None? || !m.value.Share? || m.value.burned || h.now >= m.value.expiresAt then Err(Denied)
               else if m.value.reserved.Some? then Ok(m.value.reserved.value)
               else if m.value.mailbox in h.prekeys && |h.prekeys[m.value.mailbox]| > 0 then Ok(h.prekeys[m.value.mailbox][0])
               else Err(Denied)
  {
    ValidDistinct(h);
    LastIsFirst(h.tokens, t);
    hide Valid, MemToken, LastIndex, DistinctTokens, SetKind;
  }
}
