/**
 The token sweep: sweeping mailbox by mailbox equals the global sweep, a sweep leaves nothing more to sweep,
 and which requests can tell that a sweep has just happened. `Thinning` carries the share tokens through whole runs.
 */
module Sweeping {
  import opened Basics
  import opened HomeState
  import opened HomeRun
  import opened HomeJournal
  import opened TokenMoves

  /** Position of a token in the list. */
  function Pos(ts: seq<TokenRow>, t: Key): int {
    FirstIndex(ts, t)
  }

  lemma PosAt(ts: seq<TokenRow>, i: nat)
    requires DistinctTokens(ts) && i < |ts|
    ensures Pos(ts, ts[i].token) == i
  {
  }

  lemma {:induction false} WithoutFrom(ts: seq<TokenRow>, gone: set<Key>, i: nat) returns (a: nat)
    requires i < |Without(ts, gone)|
    ensures a < |ts| && ts[a] == Without(ts, gone)[i]
  {
    assert Without(ts, gone)[i] in ts;
    a :| 0 <= a < |ts| && ts[a] == Without(ts, gone)[i];
  }

  lemma WithoutCons(ts: seq<TokenRow>, gone: set<Key>)
    ensures ts == [] ==> Without(ts, gone) == []
    ensures ts != [] && ts[0].token in gone ==> Without(ts, gone) == Without(ts[1..], gone)
    ensures ts != [] && ts[0].token !in gone ==> Without(ts, gone) == [ts[0]] + Without(ts[1..], gone)
  {
  }

  /** Filtering keeps the order of what is left. */
  lemma {:induction false} WithoutKeepsOrder(ts: seq<TokenRow>, gone: set<Key>, i: nat, j: nat) returns (a: nat, b: nat)
    requires i < j < |Without(ts, gone)|
    ensures a < b < |ts| && ts[a] == Without(ts, gone)[i] && ts[b] == Without(ts, gone)[j]
  {
    WithoutCons(ts, gone);
    hide Without;
    if ts[0].token in gone {
      a, b := WithoutKeepsOrder(ts[1..], gone, i, j);
      a, b := a + 1, b + 1;
    } else if i == 0 {
      b := WithoutFrom(ts[1..], gone, j - 1);
      a, b := 0, b + 1;
    } else {
      a, b := WithoutKeepsOrder(ts[1..], gone, i - 1, j - 1);
      a, b := a + 1, b + 1;
    }
  }

  /** `i` is newest, told by token instead of position. */
  lemma NewestByPos(ts: seq<TokenRow>, i: nat)
    requires DistinctTokens(ts) && i < |ts| && ts[i].kind.Contact?
    ensures Newest(ts, i) <==> NewestRow(ts, ts[i])
  {
    forall j | 0 <= j < |ts| ensures Pos(ts, ts[j].token) == j { PosAt(ts, j); }
    if NewestRow(ts, ts[i]) {
      forall j | 0 <= j < |ts| && ts[j].kind.Contact? && ts[j].kind.mailbox == ts[i].kind.mailbox
        ensures ts[j].kind.windowStart < ts[i].kind.windowStart
                || (ts[j].kind.windowStart == ts[i].kind.windowStart && j <= i)
      {
        assert ts[j] in ts;
      }
    } else {
      var y :| y in ts && Rivals(y, ts[i]) && !Yields(ts, y, ts[i]);
      var j :| 0 <= j < |ts| && ts[j] == y;
    }
  }

  predicate Rivals(y: TokenRow, x: TokenRow) {
    y.kind.Contact? && x.kind.Contact? && y.kind.mailbox == x.kind.mailbox
  }

  predicate Yields(ts: seq<TokenRow>, y: TokenRow, x: TokenRow)
    requires Rivals(y, x)
  {
    y.kind.windowStart < x.kind.windowStart
    || (y.kind.windowStart == x.kind.windowStart && Pos(ts, y.token) <= Pos(ts, x.token))
  }

  ghost predicate NewestRow(ts: seq<TokenRow>, x: TokenRow) {
    forall y :: y in ts && Rivals(y, x) ==> Yields(ts, y, x)
  }

  /** A row may be reclaimed, told by the row alone. */
  ghost predicate DeadRow(h: Home, x: TokenRow) {
    if x.kind.mailbox !in h.mailboxes || h.mailboxes[x.kind.mailbox].disabled then true
    else match x.kind
         case Share(_, expiresAt, _, reserved) => ShareDead(expiresAt, reserved, h.now)
         case Contact(_, grace, start, _) =>
           !NewestRow(h.tokens, x) && !(grace.Some? && h.now < grace.value) && ContactDead(start, h.now)
  }

  lemma ReclaimableRow(h: Home, i: nat)
    requires DistinctTokens(h.tokens) && i < |h.tokens|
    ensures Reclaimable(h, i) <==> DeadRow(h, h.tokens[i])
  {
    if h.tokens[i].kind.Contact? { NewestByPos(h.tokens, i); }
    hide NewestRow, Newest;
  }

  lemma PosOrder(ts: seq<TokenRow>, gone: set<Key>, x: TokenRow, y: TokenRow)
    requires DistinctTokens(ts) && x in Without(ts, gone) && y in Without(ts, gone)
    ensures Pos(Without(ts, gone), y.token) <= Pos(Without(ts, gone), x.token) <==> Pos(ts, y.token) <= Pos(ts, x.token)
  {
    var w := Without(ts, gone);
    TokensWithout(ts, gone);
    var i :| 0 <= i < |w| && w[i] == x;
    var j :| 0 <= j < |w| && w[j] == y;
    PosAt(w, i);
    PosAt(w, j);
    if i < j {
      var a, b := WithoutKeepsOrder(ts, gone, i, j);
      PosAt(ts, a);
      PosAt(ts, b);
    } else if j < i {
      var a, b := WithoutKeepsOrder(ts, gone, j, i);
      PosAt(ts, a);
      PosAt(ts, b);
    }
  }

  /** Some contact capability of every owner that has one is newest. */
  lemma {:induction false} SomeNewest(ts: seq<TokenRow>, n: nat, x: TokenRow) returns (best: TokenRow)
    requires DistinctTokens(ts) && n <= |ts| && x in ts && x.kind.Contact?
    ensures best in ts && Rivals(best, x)
    ensures forall j :: 0 <= j < n && Rivals(ts[j], x) ==> Yields(ts, ts[j], best)
  {
    if n == 0 { return x; }
    best := SomeNewest(ts, n - 1, x);
    var y := ts[n - 1];
    if Rivals(y, x) && !Yields(ts, y, best) {
      forall j | 0 <= j < n && Rivals(ts[j], x) ensures Yields(ts, ts[j], y) {
        if j < n - 1 { assert Yields(ts, ts[j], best); }
      }
      best := y;
    }
  }

  /** Dropping reclaimable rows does not change which of the others are reclaimable. */
  lemma DropKeepsDead(h: Home, gone: set<Key>, x: TokenRow)
    requires DistinctTokens(h.tokens) && gone <= DeadTokens(h) && x in h.tokens && x.token !in gone
    ensures DeadRow(DropTokens(h, gone), x) <==> DeadRow(h, x)
  {
    if x.kind.Contact? && x.kind.mailbox in h.mailboxes && !h.mailboxes[x.kind.mailbox].disabled {
      DropKeepsNewest(h, gone, x);
    }
    hide NewestRow, Without;
  }

  lemma DropKeepsNewest(h: Home, gone: set<Key>, x: TokenRow)
    requires DistinctTokens(h.tokens) && gone <= DeadTokens(h) && x in h.tokens && x.token !in gone && x.kind.Contact?
    requires x.kind.mailbox in h.mailboxes && !h.mailboxes[x.kind.mailbox].disabled
    ensures NewestRow(Without(h.tokens, gone), x) <==> NewestRow(h.tokens, x)
  {
    var w := Without(h.tokens, gone);
    forall y | y in w && Rivals(y, x) ensures Yields(w, y, x) <==> Yields(h.tokens, y, x) {
      PosOrder(h.tokens, gone, x, y);
    }
    if NewestRow(w, x) && !NewestRow(h.tokens, x) {
      var best := SomeNewest(h.tokens, |h.tokens|, x);
      forall y | y in h.tokens && Rivals(y, best) ensures Yields(h.tokens, y, best) {
        var j :| 0 <= j < |h.tokens| && h.tokens[j] == y;
        assert Rivals(h.tokens[j], x);
      }
      NewestSurvives(h, gone, best);
      assert best in w && Yields(h.tokens, best, x);
      forall y | y in h.tokens && Rivals(y, x) ensures Yields(h.tokens, y, x) {
        assert Yields(h.tokens, y, best);
      }
    }
  }

  lemma NewestSurvives(h: Home, gone: set<Key>, best: TokenRow)
    requires DistinctTokens(h.tokens) && gone <= DeadTokens(h) && best in h.tokens && best.kind.Contact?
    requires best.kind.mailbox in h.mailboxes && !h.mailboxes[best.kind.mailbox].disabled
    requires NewestRow(h.tokens, best)
    ensures best in Without(h.tokens, gone)
  {
    if best.token in gone {
      var i :| 0 <= i < |h.tokens| && Reclaimable(h, i) && h.tokens[i].token == best.token;
      var k :| 0 <= k < |h.tokens| && h.tokens[k] == best;
      assert i == k;
      ReclaimableRow(h, i);
    }
  }

  // ---------------------------------------------------------------- sweep laws

  lemma DeadTokensByRow(h: Home, t: Key)
    requires DistinctTokens(h.tokens)
    ensures t in DeadTokens(h) <==> exists x :: x in h.tokens && x.token == t && DeadRow(h, x)
  {
    if t in DeadTokens(h) {
      var i :| 0 <= i < |h.tokens| && Reclaimable(h, i) && h.tokens[i].token == t;
      ReclaimableRow(h, i);
      assert h.tokens[i] in h.tokens;
    } else if x :| x in h.tokens && x.token == t && DeadRow(h, x) {
      var i :| 0 <= i < |h.tokens| && h.tokens[i] == x;
      ReclaimableRow(h, i);
      assert false;
    }
  }

  lemma DeadForByRow(h: Home, owner: Key, t: Key)
    requires DistinctTokens(h.tokens)
    ensures t in DeadFor(h, owner) <==> exists x :: x in h.tokens && x.token == t && x.kind.mailbox == owner && DeadRow(h, x)
  {
    if t in DeadFor(h, owner) {
      var i :| 0 <= i < |h.tokens| && h.tokens[i].kind.mailbox == owner && Reclaimable(h, i) && h.tokens[i].token == t;
      ReclaimableRow(h, i);
      assert h.tokens[i] in h.tokens;
    } else if x :| x in h.tokens && x.token == t && x.kind.mailbox == owner && DeadRow(h, x) {
      var i :| 0 <= i < |h.tokens| && h.tokens[i] == x;
      ReclaimableRow(h, i);
      assert false;
    }
  }

  /** Dropping dead rows leaves exactly the other dead rows dead. */
  lemma DeadAfterDrop(h: Home, gone: set<Key>)
    requires DistinctTokens(h.tokens) && gone <= DeadTokens(h)
    ensures DeadTokens(DropTokens(h, gone)) == DeadTokens(h) - gone
  {
    var h1 := DropTokens(h, gone);
    TokensWithout(h.tokens, gone);
    forall t ensures t in DeadTokens(h1) <==> t in DeadTokens(h) - gone {
      DeadTokensByRow(h, t);
      DeadTokensByRow(h1, t);
      hide DeadRow, DeadTokens;
      forall x | x in h.tokens && x.token !in gone ensures DeadRow(h1, x) <==> DeadRow(h, x) {
        DropKeepsDead(h, gone, x);
      }
    }
  }

  /** A sweep at a fixed time leaves nothing to sweep. */
  lemma SweepIdempotent(h: Home)
    requires DistinctTokens(h.tokens)
    ensures DeadTokens(Sweep(h)) == {}
  {
    hide DeadTokens, Without;
    DeadAfterDrop(h, DeadTokens(h));
  }

  lemma DropTwice(h: Home, a: set<Key>, b: set<Key>)
    ensures DropTokens(DropTokens(h, a), b) == DropTokens(h, a + b)
  {
    WithoutTwice(h.tokens, a, b);
    assert h.dirty.tokens - a - b == h.dirty.tokens - (a + b);
    assert h.dirty.tokensDroppedExact + a + b == h.dirty.tokensDroppedExact + (a + b);
  }

  lemma {:induction false} WithoutTwice(ts: seq<TokenRow>, a: set<Key>, b: set<Key>)
    ensures Without(Without(ts, a), b) == Without(ts, a + b)
  {
    WithoutCons(ts, a);
    WithoutCons(ts, a + b);
    WithoutCons([], b);
    hide Without;
    if ts != [] {
      WithoutTwice(ts[1..], a, b);
      if ts[0].token !in a {
        var r := [ts[0]] + Without(ts[1..], a);
        WithoutCons(r, b);
        assert r[1..] == Without(ts[1..], a);
      }
    }
  }

  ghost function SweepEach(h: Home, owners: seq<Key>): Home
    decreases |owners|
  {
    if owners == [] then h else SweepFor(SweepEach(h, owners[..|owners| - 1]), owners[|owners| - 1])
  }

  ghost function DeadForAll(h: Home, owners: seq<Key>): set<Key> {
    set i | 0 <= i < |h.tokens| && h.tokens[i].kind.mailbox in owners && Reclaimable(h, i) :: h.tokens[i].token
  }

  /** Sweeping several mailboxes one after another drops what each of them would drop alone. */
  lemma {:induction false} SweepEachDrops(h: Home, owners: seq<Key>)
    requires DistinctTokens(h.tokens)
    ensures SweepEach(h, owners) == DropTokens(h, DeadForAll(h, owners))
  {
    if owners == [] {
      DeadForAllPush(h, [], 0);
      DropNothing(h);
    } else {
      var before, o := owners[..|owners| - 1], owners[|owners| - 1];
      assert owners == before + [o];
      SweepEachDrops(h, before);
      var gone := DeadForAll(h, before);
      assert gone <= DeadTokens(h);
      OwnerDeadAfter(h, gone, o);
      DeadForAllPush(h, before, o);
      hide DropTokens, DeadForAll, DeadFor, DeadTokens;
      assert gone + (DeadFor(h, o) - gone) == gone + DeadFor(h, o);
      DropTwice(h, gone, DeadFor(h, o) - gone);
    }
  }

  lemma DropNothing(h: Home)
    ensures DropTokens(h, {}) == h
  {
    WithoutNothing(h.tokens);
    assert h.dirty.tokens - {} == h.dirty.tokens && h.dirty.tokensDroppedExact + {} == h.dirty.tokensDroppedExact;
  }

  lemma {:induction false} WithoutNothing(ts: seq<TokenRow>)
    ensures Without(ts, {}) == ts
  {
    if ts != [] { WithoutNothing(ts[1..]); }
  }

  lemma OwnerDeadAfter(h: Home, gone: set<Key>, o: Key)
    requires DistinctTokens(h.tokens) && gone <= DeadTokens(h)
    ensures DeadFor(DropTokens(h, gone), o) == DeadFor(h, o) - gone
  {
    var h1 := DropTokens(h, gone);
    TokensWithout(h.tokens, gone);
    forall t ensures t in DeadFor(h1, o) <==> t in DeadFor(h, o) - gone {
      DeadForByRow(h, o, t);
      DeadForByRow(h1, o, t);
      hide DeadRow, DeadFor;
      forall x | x in h.tokens && x.token !in gone ensures DeadRow(h1, x) <==> DeadRow(h, x) {
        DropKeepsDead(h, gone, x);
      }
    }
  }

  lemma DeadForAllPush(h: Home, before: seq<Key>, o: Key)
    ensures DeadForAll(h, before + [o]) == DeadForAll(h, before) + DeadFor(h, o)
    ensures DeadForAll(h, []) == {}
  {
    hide Reclaimable;
  }

  /** Visiting every mailbox that owns a token, in any order and any number of times, equals one global sweep. */
  lemma SweepEachIsSweep(h: Home, owners: seq<Key>)
    requires DistinctTokens(h.tokens)
    requires forall i :: 0 <= i < |h.tokens| ==> h.tokens[i].kind.mailbox in owners
    ensures SweepEach(h, owners) == Sweep(h)
  {
    SweepEachDrops(h, owners);
    assert DeadForAll(h, owners) == DeadTokens(h) by { hide Reclaimable; }
  }

  /** The newest contact capability of an enabled mailbox, and any capability in its grace period, always stay. */
  lemma SweepKeeps(h: Home, i: nat)
    requires Valid(h) && i < |h.tokens| && h.tokens[i].kind.Contact?
    requires Newest(h.tokens, i) || (h.tokens[i].kind.graceUntil.Some? && h.now < h.tokens[i].kind.graceUntil.value)
    ensures MemToken(Sweep(h).tokens, h.tokens[i].token) == Some(h.tokens[i].kind)
  {
    hide MailboxesOk, DirectoryOk, PrekeysOk, MembershipsOk, Newest, MemToken;
    MemTokenWithout(h.tokens, DeadTokens(h), h.tokens[i].token);
    MemTokenAt(h.tokens, i);
    assert h.tokens[i].token !in DeadTokens(h);
  }

  // ------------------------------------------------------- what a sweep hides

  lemma SweptKind(h: Home, t: Key)
    requires Valid(h) && h.now <= U64_MAX && t in DeadTokens(h)
    ensures MemToken(h.tokens, t).Some? && MemToken(Sweep(h).tokens, t) == None
    ensures match MemToken(h.tokens, t).value
            case Share(_, expiresAt, _, _) => h.now > expiresAt
            case Contact(_, grace, start, _) => SatSub(h.now, start) >= 60 && !(grace.Some? && h.now < grace.value)
  {
    hide MailboxesOk, DirectoryOk, PrekeysOk, MembershipsOk, Newest;
    var i :| 0 <= i < |h.tokens| && Reclaimable(h, i) && h.tokens[i].token == t;
    MemTokenAt(h.tokens, i);
    hide MemToken;
    MemTokenWithout(h.tokens, DeadTokens(h), t);
    hide Without;
  }

  /**
   The sweep against the next request, whenever that comes. Prekey fetches answer as if it had not happened. So do
   appends, except through a swept contact capability: that one is now refused, and would have been let through
   exactly when it had no grace deadline.
   */
  lemma SweepIsInvisible(h: Home, later: nat, t: Key)
    requires Valid(h) && h.now <= later <= U64_MAX
    ensures FetchPrekey(Sweep(h).(now := later), t).1 == FetchPrekey(h.(now := later), t).1
    ensures var swept := AuthorizeAppend(Sweep(h).(now := later), t).1;
            var kept := AuthorizeAppend(h.(now := later), t).1;
            if t in DeadTokens(h) && MemToken(h.tokens, t).value.Contact?
            then swept == Err(Denied) && (kept.Ok? <==> MemToken(h.tokens, t).value.graceUntil == None)
            else swept == kept
  {
    hide MailboxesOk, DirectoryOk, PrekeysOk, MembershipsOk, MemToken, DeadTokens, Without;
    DropTokensValid(h, DeadTokens(h));
    LastIsFirst(h.tokens, t);
    LastIsFirst(Sweep(h).tokens, t);
    hide LastIndex;
    MemTokenWithout(h.tokens, DeadTokens(h), t);
    if t in DeadTokens(h) { SweptKind(h, t); }
  }
}
