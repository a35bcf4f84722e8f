/**
 Reclaimed share tokens are never missed. Two servers that differ only in share tokens one of them has already
 reclaimed go through any run of operations side by side and give the same answers.
 */
module Thinning {
  import opened Basics
  import opened HomeState
  import opened HomeRun
  import opened HomeJournal
  import opened TokenMoves
  import opened Sweeping
  import Capabilities

  /** Everything but the token list and the journal is equal. */
  predicate SameButTokens(h: Home, h': Home) {
    && h'.serverId == h.serverId && h'.now == h.now && h'.limits == h.limits
    && h'.mailboxes == h.mailboxes && h'.directory == h.directory && h'.memberships == h.memberships
    && h'.prekeys == h.prekeys && h'.seen == h.seen && h'.peers == h.peers && h'.outbound == h.outbound
  }

  /** The tokens in `gone` are held, are share tokens, and are dead by now. */
  ghost predicate Expendable(ts: seq<TokenRow>, gone: set<Key>, now: nat) {
    && gone <= Held(ts)
    && forall x :: x in ts && x.token in gone ==> x.kind.Share? && ShareDead(x.kind.expiresAt, x.kind.reserved, now)
  }

  /** `h'` is `h` without the share tokens in `gone`, all of them dead. */
  ghost predicate Thin(h: Home, h': Home, gone: set<Key>) {
    SameButTokens(h, h') && h'.tokens == Without(h.tokens, gone) && Expendable(h.tokens, gone, h.now)
  }

  // ------------------------------------------------------------------- token lists

  lemma {:induction false} WithoutPush(ts: seq<TokenRow>, gone: set<Key>, row: TokenRow)
    requires row.token !in gone
    ensures Without(ts + [row], gone) == Without(ts, gone) + [row]
  {
    WithoutCons(ts, gone);
    WithoutCons(ts + [row], gone);
    WithoutCons([], gone);
    hide Without;
    if ts == [] {
      assert ts + [row] == [row] && [row][1..] == [];
    } else {
      assert (ts + [row])[1..] == ts[1..] + [row];
      WithoutPush(ts[1..], gone, row);
    }
  }

  /** Changing a kept row commutes with leaving rows out. */
  lemma {:induction false} WithoutSet(ts: seq<TokenRow>, gone: set<Key>, i: nat, kind: TokenKind)
    requires DistinctTokens(ts) && i < |ts| && ts[i].token !in gone
    ensures var w := Without(ts, gone); var j := FirstIndex(w, ts[i].token);
            0 <= j < |w| && w[j] == ts[i] && SetKind(w, j, kind) == Without(SetKind(ts, i, kind), gone)
  {
    var ts1 := SetKind(ts, i, kind);
    WithoutCons(ts, gone);
    WithoutCons(ts1, gone);
    SetTail(ts, i, kind);
    hide Without, SetKind;
    if i == 0 {
      FirstPlace(ts[0], Without(ts[1..], gone), kind);
    } else {
      WithoutSet(ts[1..], gone, i - 1, kind);
      hide FirstIndex, DistinctTokens;
      LaterPlace(ts[0], Without(ts[1..], gone), ts[i].token, kind);
    }
  }

  lemma SetTail(ts: seq<TokenRow>, i: nat, kind: TokenKind)
    requires i < |ts|
    ensures SetKind(ts, i, kind) != []
    ensures i == 0 ==> SetKind(ts, i, kind)[0] == TokenRow(ts[0].token, kind) && SetKind(ts, i, kind)[1..] == ts[1..]
    ensures i > 0 ==> SetKind(ts, i, kind)[0] == ts[0] && SetKind(ts, i, kind)[1..] == SetKind(ts[1..], i - 1, kind)
  {
  }

  lemma FirstPlace(row: TokenRow, ts: seq<TokenRow>, kind: TokenKind)
    ensures FirstIndex([row] + ts, row.token) == 0 && SetKind([row] + ts, 0, kind) == [TokenRow(row.token, kind)] + ts
  {
  }

  lemma LaterPlace(row: TokenRow, ts: seq<TokenRow>, t: Key, kind: TokenKind)
    ensures var j := FirstIndex(ts, t);
            row.token != t && 0 <= j < |ts| ==>
              FirstIndex([row] + ts, t) == j + 1 && SetKind([row] + ts, j + 1, kind) == [row] + SetKind(ts, j, kind)
  {
    var j := FirstIndex(ts, t);
    if row.token != t && 0 <= j < |ts| {
      ConsIndex(row, ts, t);
      ConsSet(row, ts, j, kind);
    }
  }

  lemma ConsSet(row: TokenRow, ts: seq<TokenRow>, i: nat, kind: TokenKind)
    requires i < |ts|
    ensures SetKind([row] + ts, i + 1, kind) == [row] + SetKind(ts, i, kind)
  {
  }

  lemma ConsIndex(row: TokenRow, ts: seq<TokenRow>, t: Key)
    requires row.token != t && FirstIndex(ts, t) >= 0
    ensures FirstIndex([row] + ts, t) == FirstIndex(ts, t) + 1
  {
    assert ([row] + ts)[1..] == ts;
  }

  lemma {:induction false} WithoutBoth(ts: seq<TokenRow>, gone: set<Key>, owner: Key)
    ensures WithoutOwner(Without(ts, gone), owner) == Without(WithoutOwner(ts, owner), gone)
  {
    WithoutCons(ts, gone);
    WithoutCons([], gone);
    OwnerCons(ts, owner);
    OwnerCons([], owner);
    hide Without, WithoutOwner;
    if ts != [] {
      WithoutBoth(ts[1..], gone, owner);
      var w, o := [ts[0]] + Without(ts[1..], gone), [ts[0]] + WithoutOwner(ts[1..], owner);
      OwnerCons(w, owner);
      WithoutCons(o, gone);
      assert w[1..] == Without(ts[1..], gone) && o[1..] == WithoutOwner(ts[1..], owner);
    }
  }

  lemma OwnerCons(ts: seq<TokenRow>, owner: Key)
    ensures ts == [] ==> WithoutOwner(ts, owner) == []
    ensures ts != [] && ts[0].kind.mailbox == owner ==> WithoutOwner(ts, owner) == WithoutOwner(ts[1..], owner)
    ensures ts != [] && ts[0].kind.mailbox != owner ==> WithoutOwner(ts, owner) == [ts[0]] + WithoutOwner(ts[1..], owner)
  {
  }

  lemma HeldRows(ts: seq<TokenRow>, t: Key)
    ensures t in Held(ts) <==> exists x :: x in ts && x.token == t
  {
    if t in Held(ts) {
      var i :| 0 <= i < |ts| && ts[i].token == t;
      assert ts[i] in ts;
    }
  }

  // ------------------------------------------------------------- what is expendable

  lemma DeadIsExpired(kind: TokenKind, now: nat)
    requires kind.Share? && ShareDead(kind.expiresAt, kind.reserved, now) && now <= U64_MAX
    ensures !ShareUsable(kind, now)
  {
  }

  lemma DeadStaysDead(kind: TokenKind, now: nat, later: nat)
    requires kind.Share? && ShareDead(kind.expiresAt, kind.reserved, now) && now <= later
    ensures ShareDead(kind.expiresAt, kind.reserved, later)
  {
  }

  lemma ExpendableLater(ts: seq<TokenRow>, gone: set<Key>, now: nat, later: nat)
    requires Expendable(ts, gone, now) && now <= later
    ensures Expendable(ts, gone, later)
  {
    hide ShareDead, Held;
    forall x | x in ts && x.token in gone ensures ShareDead(x.kind.expiresAt, x.kind.reserved, later) {
      DeadStaysDead(x.kind, now, later);
    }
  }

  lemma ExpendablePush(ts: seq<TokenRow>, gone: set<Key>, now: nat, row: TokenRow)
    requires Expendable(ts, gone, now) && row.token !in Held(ts)
    ensures row.token !in gone && Expendable(ts + [row], gone, now)
  {
    hide ShareDead;
    forall t | t in gone ensures t in Held(ts + [row]) {
      HeldRows(ts, t);
      HeldRows(ts + [row], t);
    }
  }

  lemma ExpendableSet(ts: seq<TokenRow>, gone: set<Key>, now: nat, i: nat, kind: TokenKind)
    requires Expendable(ts, gone, now) && i < |ts| && ts[i].token !in gone
    ensures Expendable(SetKind(ts, i, kind), gone, now)
  {
    hide ShareDead;
    var ts1 := SetKind(ts, i, kind);
    assert Held(ts1) == Held(ts) by {
      forall t ensures t in Held(ts1) <==> t in Held(ts) {
        assert forall k :: 0 <= k < |ts| ==> ts1[k].token == ts[k].token;
      }
    }
    forall x | x in ts1 && x.token in gone ensures x in ts {
      var k :| 0 <= k < |ts1| && ts1[k] == x;
      assert k != i;
    }
  }

  /** Of a shortened list, the expendable tokens still in it. */
  lemma ExpendableFewer(ts: seq<TokenRow>, ts1: seq<TokenRow>, gone: set<Key>, now: nat)
    requires Expendable(ts, gone, now) && forall x :: x in ts1 ==> x in ts
    ensures Expendable(ts1, gone * Held(ts1), now)
  {
    hide ShareDead;
  }

  /** Leaving out tokens that are not there changes nothing. */
  lemma {:induction false} WithoutHeldOnly(ts: seq<TokenRow>, gone: set<Key>)
    ensures Without(ts, gone * Held(ts)) == Without(ts, gone)
  {
    WithoutSame(ts, gone, gone * Held(ts));
  }

  lemma {:induction false} WithoutSame(ts: seq<TokenRow>, a: set<Key>, b: set<Key>)
    requires forall i :: 0 <= i < |ts| ==> (ts[i].token in a <==> ts[i].token in b)
    ensures Without(ts, a) == Without(ts, b)
  {
    WithoutCons(ts, a);
    WithoutCons(ts, b);
    hide Without;
    if ts != [] { WithoutSame(ts[1..], a, b); }
  }

  /** Both lists shrink alike: the relation holds with what is left of `gone`. */
  lemma ThinFewer(h: Home, h': Home, gone: set<Key>, h1: Home, h1': Home)
    requires Thin(h, h', gone) && SameButTokens(h1, h1') && h1.now == h.now
    requires (forall x :: x in h1.tokens ==> x in h.tokens) && h1'.tokens == Without(h1.tokens, gone)
    ensures Thin(h1, h1', gone * Held(h1.tokens))
  {
    ExpendableFewer(h.tokens, h1.tokens, gone, h.now);
    WithoutHeldOnly(h1.tokens, gone);
    hide Without, Expendable, Held;
  }

  // ------------------------------------------------------------------ one operation

  /** A lookup of a token that is not left out finds the same row on both sides. */
  lemma SameLookup(h: Home, h': Home, gone: set<Key>, t: Key)
    requires Thin(h, h', gone) && DistinctTokens(h.tokens) && t !in gone
    ensures var i, j := LastIndex(h.tokens, t), LastIndex(h'.tokens, t);
            && (i >= 0 <==> j >= 0)
            && (i >= 0 ==> h'.tokens[j] == h.tokens[i])
            && (i >= 0 ==> forall kind :: SetKind(h'.tokens, j, kind) == Without(SetKind(h.tokens, i, kind), gone))
  {
    var ts, ts' := h.tokens, h'.tokens;
    TokensWithout(ts, gone);
    var i, j := LastIndex(ts, t), LastIndex(ts', t);
    if i >= 0 {
      forall kind ensures SetKind(ts', FirstIndex(ts', t), kind) == Without(SetKind(ts, i, kind), gone) { WithoutSet(ts, gone, i, kind); }
      WithoutSet(ts, gone, i, ts[i].kind);
      OnePlace(ts', FirstIndex(ts', t), t);
    }
    hide Without, FirstIndex, LastIndex, SetKind;
  }

  lemma OnePlace(ts: seq<TokenRow>, i: nat, t: Key)
    requires DistinctTokens(ts) && i < |ts| && ts[i].token == t
    ensures LastIndex(ts, t) == i
  {
  }

  /** A token that was left out is found on one side only, and is of no use there. */
  lemma UselessLookup(h: Home, h': Home, gone: set<Key>, t: Key)
    requires Thin(h, h', gone) && DistinctTokens(h.tokens) && t in gone && h.now <= U64_MAX
    ensures LastIndex(h'.tokens, t) < 0
    ensures var i := LastIndex(h.tokens, t); i >= 0 && h.tokens[i].kind.Share? && !ShareUsable(h.tokens[i].kind, h.now)
  {
    var i := LastIndex(h.tokens, t);
    HeldRows(h.tokens, t);
    assert h.tokens[i] in h.tokens;
    DeadIsExpired(h.tokens[i].kind, h.now);
  }

  lemma ThinTouch(h: Home, h': Home, gone: set<Key>, t: Key, kind: TokenKind)
    requires Thin(h, h', gone) && DistinctTokens(h.tokens) && t !in gone && LastIndex(h.tokens, t) >= 0
    ensures LastIndex(h'.tokens, t) >= 0
    ensures Thin(TouchToken(h, LastIndex(h.tokens, t), kind), TouchToken(h', LastIndex(h'.tokens, t), kind), gone)
  {
    SameLookup(h, h', gone, t);
    ExpendableSet(h.tokens, gone, h.now, LastIndex(h.tokens, t), kind);
    hide Without, Expendable, LastIndex, SetKind;
  }

  lemma ThinPush(h: Home, h': Home, gone: set<Key>, t: Key, kind: TokenKind)
    requires Thin(h, h', gone) && t !in Held(h.tokens)
    ensures Thin(PushToken(h, t, kind), PushToken(h', t, kind), gone)
  {
    ExpendablePush(h.tokens, gone, h.now, TokenRow(t, kind));
    WithoutPush(h.tokens, gone, TokenRow(t, kind));
    hide Without, Expendable, Held;
  }

  lemma ThinFields(h: Home, h': Home, gone: set<Key>)
    requires Thin(h, h', gone)
    ensures SameButTokens(h, h')
  {
  }

  lemma ThinAuthorize(h: Home, h': Home, gone: set<Key>, t: Key)
    requires Thin(h, h', gone) && DistinctTokens(h.tokens) && h.now <= U64_MAX
    ensures var (h1, r) := AuthorizeAppend(h, t); var (h1', r') := AuthorizeAppend(h', t);
            r' == r && Thin(h1, h1', gone) && (r.Ok? ==> t !in gone)
  {
    hide Thin, Without, LastIndex, SetKind, ShareUsable, Expendable;
    ThinFields(h, h', gone);
    if t in gone {
      UselessLookup(h, h', gone, t);
    } else {
      SameLookup(h, h', gone, t);
      var i := LastIndex(h.tokens, t);
      if i >= 0 && h.tokens[i].kind.Contact? {
        var k := h.tokens[i].kind;
        var reset := SatSub(h.now, k.windowStart) >= 60;
        ThinTouch(h, h', gone, t, Contact(k.mailbox, k.graceUntil, if reset then h.now else k.windowStart,
                                          (if reset then 0 else k.windowCount) + 1));
      }
    }
  }

  lemma ThinBurn(h: Home, h': Home, gone: set<Key>, t: Key)
    requires Thin(h, h', gone) && DistinctTokens(h.tokens) && t !in gone
    ensures Thin(BurnIfShare(h, t), BurnIfShare(h', t), gone)
  {
    hide Thin, Without, LastIndex, SetKind, Expendable;
    ThinFields(h, h', gone);
    SameLookup(h, h', gone, t);
    var i := LastIndex(h.tokens, t);
    if i >= 0 && h.tokens[i].kind.Share? { ThinTouch(h, h', gone, t, h.tokens[i].kind.(burned := true)); }
  }

  lemma ThinStore(h: Home, h': Home, gone: set<Key>, owner: Key, inner: Inner, size: nat)
    requires Thin(h, h', gone) && owner in h.mailboxes
    ensures Thin(Store(h, owner, inner, size), Store(h', owner, inner, size), gone)
  {
    hide Without, Expendable;
  }

  lemma ThinGc(h: Home, h': Home, gone: set<Key>, owner: Key)
    requires Thin(h, h', gone)
    ensures Thin(Gc(h, owner), Gc(h', owner), gone)
  {
    hide Without, Expendable, Retained, Trim, Keyed;
  }

  lemma ThinAppend(h: Home, h': Home, gone: set<Key>, inner: Inner)
    requires Valid(h) && Thin(h, h', gone) && h.now <= U64_MAX
    ensures AppendInner(h', inner).1 == AppendInner(h, inner).1
    ensures Thin(AppendInner(h, inner).0, AppendInner(h', inner).0, gone)
  {
    hide AuthorizeAppend, Store, BurnIfShare, Gc, Valid, Thin, DistinctTokens;
    ValidDistinct(h);
    AuthorizeValid(h, inner.capability);
    ThinAuthorize(h, h', gone, inner.capability);
    var (h1, r) := AuthorizeAppend(h, inner.capability);
    var (h1', r') := AuthorizeAppend(h', inner.capability);
    ThinFields(h1, h1', gone);
    if r.Ok? && r.value in h1.mailboxes && PaddedLen(inner).Some? {
      var size := PaddedLen(inner).value;
      ValidDistinct(h1);
      ThinStore(h1, h1', gone, r.value, inner, size);
      StoreKeepsTokens(h1, r.value, inner, size);
      var h2, h2' := Store(h1, r.value, inner, size), Store(h1', r.value, inner, size);
      ThinBurn(h2, h2', gone, inner.capability);
      ThinGc(BurnIfShare(h2, inner.capability), BurnIfShare(h2', inner.capability), gone, r.value);
    }
  }

  lemma StoreKeepsTokens(h: Home, owner: Key, inner: Inner, size: nat)
    requires owner in h.mailboxes
    ensures Store(h, owner, inner, size).tokens == h.tokens
  {
  }

  lemma ThinIngest(h: Home, h': Home, gone: set<Key>, enc: Option<Key>, plain: Option<Inner>)
    requires Valid(h) && Thin(h, h', gone) && h.now <= U64_MAX
    ensures Ingest(h', enc, plain).1 == Ingest(h, enc, plain).1
    ensures Thin(Ingest(h, enc, plain).0, Ingest(h', enc, plain).0, gone)
  {
    hide AppendInner, Valid, Without, Expendable;
    if plain.Some? { ThinAppend(h, h', gone, plain.value); }
  }

  lemma ThinFetch(h: Home, h': Home, gone: set<Key>, t: Key)
    requires Valid(h) && Thin(h, h', gone) && h.now <= U64_MAX
    ensures FetchPrekey(h', t).1 == FetchPrekey(h, t).1
    ensures Thin(FetchPrekey(h, t).0, FetchPrekey(h', t).0, gone)
  {
    hide Thin, Without, LastIndex, SetKind, Expendable;
    ThinFields(h, h', gone);
    ValidDistinct(h);
    hide Valid;
    if t in gone {
      UselessLookup(h, h', gone, t);
    } else {
      SameLookup(h, h', gone, t);
      var i := LastIndex(h.tokens, t);
      if i >= 0 && h.tokens[i].kind.Share? && h.tokens[i].kind.mailbox in h.prekeys && h.prekeys[h.tokens[i].kind.mailbox] != [] {
        var k := h.tokens[i].kind;
        var queue := h.prekeys[k.mailbox];
        ThinQueue(h, h', gone, k.mailbox, queue[1..]);
        ThinTouch(TakeQueue(h, k.mailbox, queue[1..]), TakeQueue(h', k.mailbox, queue[1..]), gone, t, k.(reserved := Some(queue[0])));
      }
    }
  }

  function TakeQueue(h: Home, owner: Key, queue: seq<Blob>): Home {
    h.(prekeys := h.prekeys[owner := queue], dirty := h.dirty.(prekeys := h.dirty.prekeys + {owner}))
  }

  lemma ThinQueue(h: Home, h': Home, gone: set<Key>, owner: Key, queue: seq<Blob>)
    requires Thin(h, h', gone)
    ensures Thin(TakeQueue(h, owner, queue), TakeQueue(h', owner, queue), gone)
    ensures TakeQueue(h, owner, queue).tokens == h.tokens && TakeQueue(h', owner, queue).tokens == h'.tokens
  {
    hide Without, Expendable;
  }

  // ----------------------------------------------------------------- every operation

  lemma ThinDisable(h: Home, h': Home, gone: set<Key>, owner: Key)
    requires Thin(h, h', gone)
    ensures Thin(Disable(h, owner), Disable(h', owner), gone * Held(Disable(h, owner).tokens))
  {
    var h1, h1' := Disable(h, owner), Disable(h', owner);
    WithoutBoth(h.tokens, gone, owner);
    assert forall x :: x in h1.tokens ==> x in h.tokens;
    assert h1'.tokens == Without(h1.tokens, gone);
    hide Without, WithoutOwner, Expendable, Held, Trim;
    ThinFewer(h, h', gone, h1, h1');
  }

  /** The tokens reclaimable on both sides are the same, but for those left out already. */
  lemma ThinDead(h: Home, h': Home, gone: set<Key>, owner: Key)
    requires Valid(h) && Thin(h, h', gone)
    ensures gone <= DeadTokens(h)
    ensures DeadTokens(h') == DeadTokens(h) - gone
    ensures DeadFor(h', owner) == DeadFor(h, owner) - gone
  {
    ValidDistinct(h);
    ExpendableDead(h, h', gone);
    hide Valid, Thin;
    DeadAfterDrop(h, gone);
    OwnerDeadAfter(h, gone, owner);
    ThinTokens(h, h', gone);
    SameDead(DropTokens(h, gone), h', owner);
  }

  lemma ThinTokens(h: Home, h': Home, gone: set<Key>)
    requires Thin(h, h', gone)
    ensures var d := DropTokens(h, gone); h'.tokens == d.tokens && h'.mailboxes == d.mailboxes && h'.now == d.now
  {
  }

  lemma ExpendableDead(h: Home, h': Home, gone: set<Key>)
    requires Thin(h, h', gone)
    ensures gone <= DeadTokens(h)
  {
    forall t | t in gone ensures t in DeadTokens(h) {
      HeldRows(h.tokens, t);
      var x :| x in h.tokens && x.token == t;
      var i :| 0 <= i < |h.tokens| && h.tokens[i] == x;
      assert Reclaimable(h, i);
    }
  }

  lemma SameDead(a: Home, b: Home, owner: Key)
    requires a.tokens == b.tokens && a.mailboxes == b.mailboxes && a.now == b.now
    ensures DeadTokens(a) == DeadTokens(b) && DeadFor(a, owner) == DeadFor(b, owner)
  {
    assert forall i :: 0 <= i < |a.tokens| ==> (Reclaimable(a, i) <==> Reclaimable(b, i));
  }

  lemma ThinDrop(h: Home, h': Home, gone: set<Key>, dead: set<Key>)
    requires Thin(h, h', gone)
    ensures Thin(DropTokens(h, dead), DropTokens(h', dead - gone), gone * Held(DropTokens(h, dead).tokens))
  {
    var h1, h1' := DropTokens(h, dead), DropTokens(h', dead - gone);
    WithoutTwice(h.tokens, gone, dead - gone);
    WithoutTwice(h.tokens, dead, gone);
    assert gone + (dead - gone) == dead + gone;
    assert forall x :: x in h1.tokens ==> x in h.tokens;
    assert h1'.tokens == Without(h1.tokens, gone);
    hide Without, Expendable, Held;
    ThinFewer(h, h', gone, h1, h1');
  }

  lemma ThinSweep(h: Home, h': Home, gone: set<Key>, owner: Key)
    requires Valid(h) && Thin(h, h', gone)
    ensures Thin(SweepFor(h, owner), SweepFor(h', owner), gone * Held(SweepFor(h, owner).tokens))
    ensures Thin(Sweep(h), Sweep(h'), gone * Held(Sweep(h).tokens))
  {
    ThinDead(h, h', gone, owner);
    hide Valid, Thin, DropTokens, DeadFor, DeadTokens;
    ThinDrop(h, h', gone, DeadFor(h, owner));
    ThinDrop(h, h', gone, DeadTokens(h));
  }

  lemma ThinMint(h: Home, h': Home, gone: set<Key>, owner: Key, t: Key) returns (left: set<Key>)
    requires Valid(h) && Thin(h, h', gone) && t !in Held(h.tokens)
    ensures Thin(MintContact(h, owner, t).0, MintContact(h', owner, t).0, left) && left <= gone
    ensures MintContact(h', owner, t).1 == MintContact(h, owner, t).1
  {
    ThinFields(h, h', gone);
    ThinSweep(h, h', gone, owner);
    HeldWithout(h, DeadFor(h, owner));
    SweepKeepsNow(h, owner);
    SweepKeepsNow(h', owner);
    hide Thin, Valid, SweepFor;
    left := if Enabled(h, owner) then gone * Held(SweepFor(h, owner).tokens) else gone;
    if Enabled(h, owner) {
      ThinPush(SweepFor(h, owner), SweepFor(h', owner), left, t, Contact(owner, None, h.now, 0));
    }
  }

  lemma SweepKeepsNow(h: Home, owner: Key)
    ensures SweepFor(h, owner).now == h.now && SweepFor(h, owner).tokens == DropTokens(h, DeadFor(h, owner)).tokens
  {
  }

  lemma ThinRotate(h: Home, h': Home, gone: set<Key>, owner: Key, old_: Key, confirm: bool, t: Key) returns (left: set<Key>)
    requires Valid(h) && Thin(h, h', gone) && t !in Held(h.tokens) && h.now <= U64_MAX
    ensures Thin(RotateContact(h, owner, old_, confirm, t).0, RotateContact(h', owner, old_, confirm, t).0, left) && left <= gone
  {
    hide MintContact, Thin, Valid, Graced;
    left := ThinMint(h, h', gone, owner, t);
    MintValid(h, owner, t);
    MintKeepsNow(h, owner, t);
    RotateIs(h, owner, old_, confirm, t);
    RotateIs(h', owner, old_, confirm, t);
    ThinGrace(MintContact(h, owner, t).0, MintContact(h', owner, t).0, left, owner, old_, confirm);
  }

  /** What a rotation does beyond minting: the old capability of the same owner gets its deadline. */
  function Graced(h: Home, owner: Key, old_: Key, confirm: bool): Home {
    var i := LastIndex(h.tokens, old_);
    if confirm && i >= 0 && h.tokens[i].kind.Contact? && h.tokens[i].kind.mailbox == owner
    then TouchToken(h, i, h.tokens[i].kind.(graceUntil := Some(h.now + CONTACT_GRACE_SECS)))
    else h
  }

  lemma RotateIs(h: Home, owner: Key, old_: Key, confirm: bool, t: Key)
    ensures var (h1, r) := MintContact(h, owner, t);
            RotateContact(h, owner, old_, confirm, t).0 == if r.Ok? then Graced(h1, owner, old_, confirm) else h1
  {
    hide MintContact, LastIndex;
  }

  lemma ThinGrace(h: Home, h': Home, gone: set<Key>, owner: Key, old_: Key, confirm: bool)
    requires Valid(h) && Thin(h, h', gone) && h.now <= U64_MAX
    ensures Thin(Graced(h, owner, old_, confirm), Graced(h', owner, old_, confirm), gone)
  {
    hide Thin, LastIndex, SetKind;
    ThinFields(h, h', gone);
    ValidDistinct(h);
    hide Valid, DistinctTokens;
    if old_ in gone {
      UselessLookup(h, h', gone, old_);
    } else {
      SameLookup(h, h', gone, old_);
      var i := LastIndex(h.tokens, old_);
      if i >= 0 && h.tokens[i].kind.Contact? {
        ThinTouch(h, h', gone, old_, h.tokens[i].kind.(graceUntil := Some(h.now + CONTACT_GRACE_SECS)));
      }
    }
  }

  lemma MintKeepsNow(h: Home, owner: Key, t: Key)
    ensures MintContact(h, owner, t).0.now == h.now
  {
    hide DeadFor, Without;
  }

  lemma ThinObserve(h: Home, h': Home, gone: set<Key>, id: Key, b: Binding, v: bool) returns (left: set<Key>)
    requires Thin(h, h', gone)
    ensures Thin(ObserveBinding(h, id, b, v).0, ObserveBinding(h', id, b, v).0, left) && left <= gone
  {
    left := gone;
    hide Disable, Without, Expendable;
    if (id in h.directory || id in h.mailboxes) && v && b.seqNo > (if id in h.directory then h.directory[id].bindingSeq else 0) {
      var row := if id in h.directory then h.directory[id].(binding := b, bindingSeq := b.seqNo)
                 else DirectoryRow(h.mailboxes[id].ownerPk, 0, b, b.seqNo, None);
      var h1, h1' := PutDirectory(h, id, row), PutDirectory(h', id, row);
      assert Thin(h1, h1', gone);
      if b.serverId != h.serverId {
        ThinDisable(h1, h1', gone, id);
        left := gone * Held(Disable(h1, id).tokens);
      }
    }
  }

  function PutDirectory(h: Home, id: Key, row: DirectoryRow): Home {
    h.(directory := h.directory[id := row], dirty := h.dirty.(identities := h.dirty.identities + {id}))
  }

  lemma ThinRevoke(h: Home, h': Home, gone: set<Key>, id: Key, stmt: Blob, v: bool) returns (left: set<Key>)
    requires Thin(h, h', gone)
    ensures Thin(IngestRevocation(h, id, stmt, v).0, IngestRevocation(h', id, stmt, v).0, left) && left <= gone
  {
    left := gone;
    hide Disable, Without, Expendable;
    if id in h.directory && v {
      var row := h.directory[id].(revocation := Some(stmt));
      var h1, h1' := PutDirectory(h, id, row), PutDirectory(h', id, row);
      assert Thin(h1, h1', gone);
      ThinDisable(h1, h1', gone, id);
      left := gone * Held(Disable(h1, id).tokens);
    }
  }

  lemma ThinRegister(h: Home, h': Home, gone: set<Key>, id: Key, pk: Key)
    requires Thin(h, h', gone)
    ensures Thin(Register(h, id, pk).0, Register(h', id, pk).0, gone) && Register(h', id, pk).1 == Register(h, id, pk).1
    ensures Register(h, id, pk).0.tokens == h.tokens
  {
    hide Without, Expendable;
  }

  lemma ThinShare(h: Home, h': Home, gone: set<Key>, owner: Key, t: Key, ttl: Option<nat>)
    requires Thin(h, h', gone) && t !in Held(h.tokens)
    ensures Thin(RegisterShare(h, owner, t, ttl).0, RegisterShare(h', owner, t, ttl).0, gone)
  {
    hide Thin, Held, PushToken, AllowedIntroTtl;
    ThinFields(h, h', gone);
    var secs := if ttl.Some? then ttl.value else SHARE_TTL_DEFAULT;
    ThinPush(h, h', gone, t, Share(owner, h.now + secs, false, None));
    assert Enabled(h', owner) == Enabled(h, owner) && h'.now == h.now;
    hide SameButTokens, Enabled;
  }

  lemma ThinCard(h: Home, h': Home, gone: set<Key>, card: Card, v: bool)
    requires Thin(h, h', gone) && card.shareToken !in Held(h.tokens)
    ensures Thin(RegisterFromCard(h, card, v).0, RegisterFromCard(h', card, v).0, gone)
  {
    ThinFields(h, h', gone);
    ThinRegister(h, h', gone, card.id, card.identityPk);
    var (h1, r) := Register(h, card.id, card.identityPk);
    var (h1', r') := Register(h', card.id, card.identityPk);
    hide Register, RegisterShare, Held;
    if v && card.binding.serverId == h.serverId && r.Ok? {
      var row := DirectoryRow(card.identityPk, card.revocationPk, card.binding, card.binding.seqNo, None);
      var h2, h2' := h1.(directory := h1.directory[card.id := row]), h1'.(directory := h1'.directory[card.id := row]);
      assert Thin(h2, h2', gone) by { hide Without, Expendable; }
      hide Thin;
      ThinShare(h2, h2', gone, card.id, card.shareToken, None);
    }
    hide Thin;
  }

  lemma ThinPeers(h: Home, h': Home, gone: set<Key>, peers: map<Key, Peer>, d: HomeDirty, d': HomeDirty)
    requires Thin(h, h', gone)
    ensures Thin(h.(peers := peers, dirty := d), h'.(peers := peers, dirty := d'), gone)
  {
    hide Without, Expendable;
  }

  lemma ThinHandle(h: Home, h': Home, gone: set<Key>, from: Key, enc: Option<Key>, plain: Option<Inner>)
    requires Valid(h) && Thin(h, h', gone) && h.now <= U64_MAX && from in h.peers
    ensures from in h'.peers
    ensures HandleCiphertext(h', from, enc, plain).1 == HandleCiphertext(h, from, enc, plain).1
    ensures Thin(HandleCiphertext(h, from, enc, plain).0, HandleCiphertext(h', from, enc, plain).0, gone)
  {
    hide Valid, Thin, Ingest, HandleCiphertext;
    ThinFields(h, h', gone);
    HandleIs(h, from, enc, plain);
    HandleIs(h', from, enc, plain);
    var p1 := Windowed(h.peers[from], h.now);
    ThinPut(h, h', gone, h.peers[from := p1]);
    PeersKeepValid(h, h.peers[from := p1]);
    ThinIngest(h.(peers := h.peers[from := p1]), h'.(peers := h.peers[from := p1]), gone, enc, plain);
    var (h2, r) := Ingest(h.(peers := h.peers[from := p1]), enc, plain);
    var (h2', r') := Ingest(h'.(peers := h.peers[from := p1]), enc, plain);
    ThinFields(h2, h2', gone);
    if enc.Some? && r.Ok? { ThinPut(h2, h2', gone, h2.peers[from := Noted(p1, enc.value, r.value)]); }
    hide SameButTokens, Windowed, Noted;
  }

  lemma ThinPut(h: Home, h': Home, gone: set<Key>, peers: map<Key, Peer>)
    requires Thin(h, h', gone)
    ensures Thin(h.(peers := peers), h'.(peers := peers), gone)
  {
    hide Without, Expendable;
  }

  lemma PeersKeepValid(h: Home, peers: map<Key, Peer>)
    requires Valid(h)
    ensures Valid(h.(peers := peers))
  {
    hide MailboxesOk, TokensOk, DirectoryOk, PrekeysOk, MembershipsOk;
  }

  lemma ThinAccept(h: Home, h': Home, gone: set<Key>, from: Key, frame: Frame)
    requires Valid(h) && Thin(h, h', gone) && h.now <= U64_MAX
    ensures AcceptFrame(h', from, frame).1 == AcceptFrame(h, from, frame).1
    ensures Thin(AcceptFrame(h, from, frame).0, AcceptFrame(h', from, frame).0, gone)
  {
    ThinFields(h, h', gone);
    hide Thin, HandleCiphertext;
    if from in h.peers {
      var p := h.peers[from].(lastRx := frame.counter);
      var h1, h1' := MarkPeer(h, from, p), MarkPeer(h', from, p);
      ThinPeers(h, h', gone, h.peers[from := p], h1.dirty, h1'.dirty);
      assert h1 == h.(peers := h.peers[from := p], dirty := h1.dirty) && h1' == h'.(peers := h.peers[from := p], dirty := h1'.dirty);
      MarkKeepsValid(h, from, p);
      hide Valid;
      if frame.payload.Ciphertext? { ThinHandle(h1, h1', gone, from, frame.payload.enc, frame.payload.plain); }
    }
  }

  lemma MarkKeepsValid(h: Home, id: Key, p: Peer)
    requires Valid(h)
    ensures Valid(MarkPeer(h, id, p))
  {
    hide MailboxesOk, TokensOk, DirectoryOk, PrekeysOk, MembershipsOk;
  }

  // ------------------------------------------------------------------------ any step

  lemma ThinIdentityStep(h: Home, h': Home, gone: set<Key>, op: Op) returns (left: set<Key>)
    requires Valid(h) && Thin(h, h', gone) && Admissible(h, op) && IdentityOp(op) && (op.OpTick? ==> h.now <= op.time)
    ensures Thin(Step(h, op), Step(h', op), left) && left <= gone
  {
    left := gone;
    hide Register, RegisterFromCard, ObserveBinding, IngestRevocation, Valid;
    match op
    case OpTick(time) =>
      ExpendableLater(h.tokens, gone, h.now, time);
      hide Without, Expendable;
    case OpRegister(id, pk) => ThinRegister(h, h', gone, id, pk);
    case OpRegisterCard(card, v) => ThinCard(h, h', gone, card, v);
    case OpObserveBinding(id, b, v) => left := ThinObserve(h, h', gone, id, b, v);
    case OpRevoke(id, stmt, v) => left := ThinRevoke(h, h', gone, id, stmt, v);
    case OpNoteMembership(id, g) => ThinMember(h, h', gone, id, g);
  }

  lemma ThinMember(h: Home, h': Home, gone: set<Key>, id: Key, group: Key)
    requires Thin(h, h', gone)
    ensures Thin(NoteMembership(h, id, group), NoteMembership(h', id, group), gone)
  {
    hide Without, Expendable;
  }

  lemma ThinTokenStep(h: Home, h': Home, gone: set<Key>, op: Op) returns (left: set<Key>)
    requires Valid(h) && Thin(h, h', gone) && Admissible(h, op) && TokenOp(op) && h.now <= U64_MAX
    ensures Thin(Step(h, op), Step(h', op), left) && left <= gone
  {
    left := gone;
    hide PublishPrekey, FetchPrekey, RegisterShare, MintContact, RotateContact, SweepFor, Sweep, Valid, Thin, Held;
    match op
    case OpPublishPrekey(o, b) => ThinPublish(h, h', gone, o, b);
    case OpFetchPrekey(t) => ThinFetch(h, h', gone, t);
    case OpRegisterShare(o, t, ttl) => ThinShare(h, h', gone, o, t, ttl);
    case OpMintContact(o, t) => left := ThinMint(h, h', gone, o, t);
    case OpRotateContact(o, x, c, t) => left := ThinRotate(h, h', gone, o, x, c, t);
    case OpSweepFor(o) =>
      ThinSweep(h, h', gone, o);
      left := gone * Held(SweepFor(h, o).tokens);
    case OpSweep =>
      ThinSweep(h, h', gone, 0);
      left := gone * Held(Sweep(h).tokens);
  }

  lemma ThinPublish(h: Home, h': Home, gone: set<Key>, owner: Key, blob: Blob)
    requires Thin(h, h', gone)
    ensures Thin(PublishPrekey(h, owner, blob).0, PublishPrekey(h', owner, blob).0, gone)
  {
    hide Without, Expendable;
  }

  lemma ThinMailStep(h: Home, h': Home, gone: set<Key>, op: Op)
    requires Valid(h) && Thin(h, h', gone) && MailOp(op) && h.now <= U64_MAX
    ensures Thin(Step(h, op), Step(h', op), gone)
  {
    hide Valid, Thin, Step;
    if op.OpAcceptFrame? || op.OpEnqueue? || op.OpDeferOutbound? || op.OpEditOutbound? {
      ThinQueueStep(h, h', gone, op);
    } else {
      ThinMailboxStep(h, h', gone, op);
    }
  }

  lemma ThinMailboxStep(h: Home, h': Home, gone: set<Key>, op: Op)
    requires Valid(h) && Thin(h, h', gone) && h.now <= U64_MAX && (op.OpIngest? || op.OpAppend? || op.OpFetch? || op.OpAck?)
    ensures Thin(Step(h, op), Step(h', op), gone)
  {
    hide Ingest, AppendInner, Gc, Ack, Valid, Thin;
    match op
    case OpIngest(enc, plain) => ThinIngest(h, h', gone, enc, plain);
    case OpAppend(inner) => ThinAppend(h, h', gone, inner);
    case OpFetch(o) => ThinGc(h, h', gone, o);
    case OpAck(o, u) => ThinAck(h, h', gone, o, u);
  }

  lemma ThinQueueStep(h: Home, h': Home, gone: set<Key>, op: Op)
    requires Valid(h) && Thin(h, h', gone) && h.now <= U64_MAX
    requires op.OpAcceptFrame? || op.OpEnqueue? || op.OpDeferOutbound? || op.OpEditOutbound?
    ensures Thin(Step(h, op), Step(h', op), gone)
  {
    hide AcceptFrame, Enqueue, DeferOutbound, SetOutbound, Valid, Thin;
    match op
    case OpAcceptFrame(p, frame) => ThinAccept(h, h', gone, p, frame);
    case OpEnqueue(outer) => ThinEnqueue(h, h', gone, outer);
    case OpDeferOutbound(until) => ThinQueued(h, h', gone, until, []);
    case OpEditOutbound(rows) => ThinQueued(h, h', gone, 0, rows);
  }

  lemma ThinAck(h: Home, h': Home, gone: set<Key>, owner: Key, upTo: U64)
    requires Thin(h, h', gone)
    ensures Thin(Ack(h, owner, upTo).0, Ack(h', owner, upTo).0, gone)
  {
    hide Without, Expendable, AckRows;
  }

  lemma ThinQueued(h: Home, h': Home, gone: set<Key>, until: nat, rows: seq<OutboundRow>)
    requires Thin(h, h', gone)
    ensures Thin(DeferOutbound(h, until), DeferOutbound(h', until), gone)
    ensures Thin(SetOutbound(h, rows), SetOutbound(h', rows), gone)
  {
    hide Without, Expendable;
  }

  lemma ThinEnqueue(h: Home, h': Home, gone: set<Key>, outer: Outer)
    requires Valid(h) && Thin(h, h', gone) && h.now <= U64_MAX
    ensures Thin(Enqueue(h, outer), Enqueue(h', outer), gone)
  {
    ThinFields(h, h', gone);
    ThinIngest(h, h', gone, outer.enc, outer.plain);
    hide Valid, Thin, Ingest, SetOutbound;
    ThinQueued(h, h', gone, 0, h.outbound + [OutboundRow(outer.dest, outer, h.now, h.now, 1)]);
  }

  lemma ThinPeerStep(h: Home, h': Home, gone: set<Key>, op: Op)
    requires Thin(h, h', gone)
    requires op.OpPin? || op.OpRefuse? || op.OpRotateSign? || op.OpResetLink? || op.OpTakeFrame? || op.OpHelloDone?
    ensures Thin(Step(h, op), Step(h', op), gone)
  {
    var a, b := Step(h, op), Step(h', op);
    ThinFields(h, h', gone);
    PeerStepQuiet(h, op);
    PeerStepQuiet(h', op);
    PeerStepSame(h, h', op);
    hide Step, Without, Expendable;
  }

  lemma PeerStepSame(h: Home, h': Home, op: Op)
    requires SameButTokens(h, h')
    requires op.OpPin? || op.OpRefuse? || op.OpRotateSign? || op.OpResetLink? || op.OpTakeFrame? || op.OpHelloDone?
    ensures SameButTokens(Step(h, op), Step(h', op))
  {
    hide Step, SameButTokens;
    if op.OpPin? || op.OpRefuse? || op.OpRotateSign? { PinStepSame(h, h', op); } else { LinkStepSame(h, h', op); }
  }

  lemma PinStepSame(h: Home, h': Home, op: Op)
    requires SameButTokens(h, h') && (op.OpPin? || op.OpRefuse? || op.OpRotateSign?)
    ensures SameButTokens(Step(h, op), Step(h', op))
  {
    hide SameButTokens, Pin, Refuse, RotateSign;
    match op
    case OpPin(p, bundle, v) => PinSame(h, h', p, bundle, v);
    case OpRefuse(p) => RefuseSame(h, h', p);
    case OpRotateSign(p, bundle, v) => RotateSame(h, h', p, bundle, v);
  }

  lemma LinkStepSame(h: Home, h': Home, op: Op)
    requires SameButTokens(h, h') && (op.OpResetLink? || op.OpTakeFrame? || op.OpHelloDone?)
    ensures SameButTokens(Step(h, op), Step(h', op))
  {
    hide ResetLink, TakeFrame, SameButTokens;
    match op
    case OpResetLink(p) => LinkSame(h, h', p, Fail);
    case OpTakeFrame(p, payload) => LinkSame(h, h', p, payload);
    case OpHelloDone(p) => HelloSame(h, h', p);
  }

  lemma HelloSame(h: Home, h': Home, p: Key)
    requires SameButTokens(h, h')
    ensures SameButTokens(Step(h, OpHelloDone(p)), Step(h', OpHelloDone(p)))
  {
  }

  lemma PinSame(h: Home, h': Home, id: Key, bundle: Blob, verified: bool)
    requires SameButTokens(h, h')
    ensures SameButTokens(Pin(h, id, bundle, verified), Pin(h', id, bundle, verified))
  {
    MarkSame(h, h', id, if id in h.peers then h.peers[id].(bundle := bundle) else Peer(bundle, false, 0, 1, false, 0, 0, map[]));
    hide MarkPeer;
  }

  lemma RefuseSame(h: Home, h': Home, id: Key)
    requires SameButTokens(h, h')
    ensures SameButTokens(Refuse(h, id), Refuse(h', id))
  {
    if id in h.peers { MarkSame(h, h', id, h.peers[id].(refused := true)); }
    hide MarkPeer;
  }

  lemma RotateSame(h: Home, h': Home, id: Key, bundle: Blob, verified: bool)
    requires SameButTokens(h, h')
    ensures SameButTokens(RotateSign(h, id, bundle, verified), RotateSign(h', id, bundle, verified))
  {
    if id in h.peers { MarkSame(h, h', id, h.peers[id].(bundle := bundle)); }
    hide MarkPeer;
  }

  lemma LinkSame(h: Home, h': Home, id: Key, payload: Payload)
    requires SameButTokens(h, h')
    ensures SameButTokens(ResetLink(h, id), ResetLink(h', id))
    ensures SameButTokens(TakeFrame(h, id, payload).0, TakeFrame(h', id, payload).0)
  {
    if id in h.peers {
      var p := h.peers[id];
      MarkSame(h, h', id, p.(lastRx := 0, nextTx := 1, helloDone := false));
      MarkSame(h, h', id, p.(nextTx := p.nextTx + 1));
    }
    hide MarkPeer;
  }

  lemma MarkSame(h: Home, h': Home, id: Key, p: Peer)
    requires SameButTokens(h, h')
    ensures SameButTokens(MarkPeer(h, id, p), MarkPeer(h', id, p))
  {
  }

  /** Any operation, run on both sides, keeps them apart by dead share tokens only. */
  lemma StepThin(h: Home, h': Home, gone: set<Key>, op: Op) returns (left: set<Key>)
    requires Valid(h) && Thin(h, h', gone) && Admissible(h, op) && h.now <= U64_MAX && (op.OpTick? ==> h.now <= op.time)
    ensures Thin(Step(h, op), Step(h', op), left) && left <= gone
  {
    hide Valid, Thin, Step, Admissible;
    left := gone;
    if MailOp(op) {
      ThinMailStep(h, h', gone, op);
    } else if IdentityOp(op) {
      left := ThinIdentityStep(h, h', gone, op);
    } else if TokenOp(op) {
      left := ThinTokenStep(h, h', gone, op);
    } else {
      ThinPeerStep(h, h', gone, op);
    }
  }

  // ------------------------------------------------------------------------ any run

  /** The clock is a 64-bit number and does not go back; new tokens are new. */
  ghost predicate IsRun(hs: seq<Home>, ops: seq<Op>) {
    && |hs| == |ops| + 1
    && hs[0].now <= U64_MAX
    && forall i :: 0 <= i < |ops| ==>
         && Admissible(hs[i], ops[i]) && (ops[i].OpTick? ==> hs[i].now <= ops[i].time <= U64_MAX)
         && hs[i + 1] == Step(hs[i], ops[i])
  }

  /** What a caller sees of a state. */
  ghost predicate SameAnswers(h: Home, h': Home) {
    && (forall t :: FetchPrekey(h', t).1 == FetchPrekey(h, t).1)
    && (forall t :: AuthorizeAppend(h', t).1 == AuthorizeAppend(h, t).1)
    && (forall inner :: AppendInner(h', inner).1 == AppendInner(h, inner).1)
    && (forall enc, plain :: Ingest(h', enc, plain).1 == Ingest(h, enc, plain).1)
    && (forall from, frame :: AcceptFrame(h', from, frame).1 == AcceptFrame(h, from, frame).1)
    && SameButTokens(h, h')
  }

  lemma ThinAnswers(h: Home, h': Home, gone: set<Key>)
    requires Valid(h) && Thin(h, h', gone) && h.now <= U64_MAX
    ensures SameAnswers(h, h')
  {
    ValidDistinct(h);
    ThinFields(h, h', gone);
    hide Valid, Thin, FetchPrekey, AuthorizeAppend, AppendInner, Ingest, AcceptFrame, DistinctTokens;
    forall t ensures FetchPrekey(h', t).1 == FetchPrekey(h, t).1 { ThinFetch(h, h', gone, t); }
    forall t ensures AuthorizeAppend(h', t).1 == AuthorizeAppend(h, t).1 { ThinAuthorize(h, h', gone, t); }
    forall inner ensures AppendInner(h', inner).1 == AppendInner(h, inner).1 { ThinAppend(h, h', gone, inner); }
    forall enc, plain ensures Ingest(h', enc, plain).1 == Ingest(h, enc, plain).1 { ThinIngest(h, h', gone, enc, plain); }
    forall from, frame ensures AcceptFrame(h', from, frame).1 == AcceptFrame(h, from, frame).1 { ThinAccept(h, h', gone, from, frame); }
  }

  lemma StepClock(h: Home, op: Op)
    requires h.now <= U64_MAX && (op.OpTick? ==> op.time <= U64_MAX) && Valid(h)
    ensures Step(h, op).now <= U64_MAX
  {
    if op.OpTick? {
    } else {
      Capabilities.NowStays(h, op);
      hide Step;
    }
  }

  /**
   Whatever happens afterwards, the second server is the first without some dead share tokens, and every prekey fetch,
   authorisation, append, ingestion and frame is answered alike; mailboxes, queues and links are the same throughout.
   */
  lemma {:induction false} RunThin(hs: seq<Home>, hs': seq<Home>, ops: seq<Op>, gone: set<Key>) returns (left: set<Key>)
    requires IsRun(hs, ops) && |hs'| == |hs| && Valid(hs[0]) && Thin(hs[0], hs'[0], gone)
    requires forall i :: 0 <= i < |ops| ==> hs'[i + 1] == Step(hs'[i], ops[i])
    ensures Valid(hs[|ops|]) && Thin(hs[|ops|], hs'[|ops|], left) && hs[|ops|].now <= U64_MAX
    ensures forall i :: 0 <= i < |hs| ==> SameAnswers(hs[i], hs'[i])
  {
    hide Valid, Thin, Step, Admissible, SameAnswers;
    if |ops| == 0 {
      left := gone;
    } else {
      var n := |ops| - 1;
      assert forall i :: 0 <= i < n + 1 ==> hs[..n + 1][i] == hs[i] && hs'[..n + 1][i] == hs'[i];
      var before := RunThin(hs[..n + 1], hs'[..n + 1], ops[..n], gone);
      left := StepThin(hs[n], hs'[n], before, ops[n]);
      StepValid(hs[n], ops[n]);
      StepClock(hs[n], ops[n]);
    }
    ThinAnswers(hs[|ops|], hs'[|ops|], left);
  }

  /** The share tokens a sweep reclaims. */
  ghost function DeadShares(h: Home): set<Key> {
    set i | 0 <= i < |h.tokens| && h.tokens[i].kind.Share? && Reclaimable(h, i) :: h.tokens[i].token
  }

  /**
   Reclaiming share tokens is invisible. Compare a sweep with one that spares share tokens: from there on, over any
   run of operations, both servers give the same answers in every state.
   */
  lemma ShareSweepIsInvisible(h: Home, hs: seq<Home>, hs': seq<Home>, ops: seq<Op>)
    requires Valid(h) && h.now <= U64_MAX
    requires hs != [] && hs[0] == DropTokens(h, DeadTokens(h) - DeadShares(h)) && IsRun(hs, ops)
    requires |hs'| == |hs| && hs'[0] == Sweep(h) && forall i :: 0 <= i < |ops| ==> hs'[i + 1] == Step(hs'[i], ops[i])
    ensures forall i :: 0 <= i < |hs| ==> SameAnswers(hs[i], hs'[i])
  {
    DropTokensValid(h, DeadTokens(h) - DeadShares(h));
    SweepThins(h);
    hide Valid, Step, Thin, SameAnswers, DropTokens, DeadTokens, DeadShares;
    var left := RunThin(hs, hs', ops, DeadShares(h));
  }

  lemma SweepThins(h: Home)
    requires Valid(h)
    ensures Thin(DropTokens(h, DeadTokens(h) - DeadShares(h)), Sweep(h), DeadShares(h))
  {
    var shares, contacts := DeadShares(h), DeadTokens(h) - DeadShares(h);
    SharesExpendable(h);
    DeadSharesDead(h);
    DroppedStillHolds(h, contacts, shares);
    assert contacts + shares == DeadTokens(h);
    hide Valid, DeadTokens, DeadShares, Expendable;
    WithoutTwice(h.tokens, contacts, shares);
    hide Without;
  }

  lemma DeadSharesDead(h: Home)
    ensures DeadShares(h) <= DeadTokens(h)
  {
    hide Newest, ShareDead;
  }

  lemma DroppedStillHolds(h: Home, gone: set<Key>, shares: set<Key>)
    requires Expendable(h.tokens, shares, h.now) && shares !! gone
    ensures Expendable(Without(h.tokens, gone), shares, h.now)
  {
    hide ShareDead;
    HeldAfterDrop(h.tokens, gone, shares);
  }

  lemma HeldAfterDrop(ts: seq<TokenRow>, gone: set<Key>, kept: set<Key>)
    requires kept <= Held(ts) && kept !! gone
    ensures kept <= Held(Without(ts, gone))
  {
    forall t | t in kept ensures t in Held(Without(ts, gone)) {
      HeldRows(ts, t);
      HeldRows(Without(ts, gone), t);
    }
  }

  lemma SharesExpendable(h: Home)
    requires Valid(h)
    ensures Expendable(h.tokens, DeadShares(h), h.now)
  {
    hide MailboxesOk, DirectoryOk, PrekeysOk, MembershipsOk, Newest;
    forall x | x in h.tokens && x.token in DeadShares(h)
      ensures x.kind.Share? && ShareDead(x.kind.expiresAt, x.kind.reserved, h.now)
    {
      var i :| 0 <= i < |h.tokens| && h.tokens[i].kind.Share? && Reclaimable(h, i) && h.tokens[i].token == x.token;
      var k :| 0 <= k < |h.tokens| && h.tokens[k] == x;
      assert i == k;
    }
  }
}
