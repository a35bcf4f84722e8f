/**
 What accepted commits do. Told leaf by leaf, without the tree operations: for foreign commits and for a member's own
 echo, what happens to every position, every credential id and every announcement, and how the call is answered.
 */
module MlsEffects {
  import opened Basics
  import opened Mls
  import opened MlsAgreement

  // ------------------------------------------------------------------- one commit

  predicate Updates(c: Commit, i: nat) {
    exists k :: 0 <= k < |c.updates| && c.updates[k].index == i
  }

  predicate SendsPath(c: Commit, i: nat) {
    c.path.Some? && c.sender == FromMember(i)
  }

  /** A position where somebody stays: occupied before, and not removed. */
  predicate Stays(before: map<nat, Leaf>, c: Commit, i: nat) {
    i in before && i !in c.removes
  }

  /** Every place to the left is taken. */
  predicate FullBefore(leaves: map<nat, Leaf>, i: nat) {
    forall j :: 0 <= j < i ==> j in leaves
  }

  /** The tree after a commit, position by position. */
  ghost predicate Carried(before: map<nat, Leaf>, c: Commit, after: map<nat, Leaf>) {
    && Remaining(before, c, after)
    && Joined(before, c, after)
    && |after| + |c.removes| == |before| + |c.adds|
  }

  /** Whoever stays has the updated leaf, the path leaf, or the old one. */
  ghost predicate Remaining(before: map<nat, Leaf>, c: Commit, after: map<nat, Leaf>) {
    && (forall k :: 0 <= k < |c.updates| ==> Get(after, c.updates[k].index) == Some(c.updates[k].leaf))
    && (forall i :: SendsPath(c, i) ==> Get(after, i) == Some(c.path.value))
    && (forall i :: Stays(before, c, i) && !Updates(c, i) && !SendsPath(c, i) ==> Get(after, i) == Some(before[i]))
  }

  /** Whoever was removed is gone, and only joiners are new; each has the leftmost place that was free. */
  ghost predicate Joined(before: map<nat, Leaf>, c: Commit, after: map<nat, Leaf>) {
    && (forall i :: Stays(before, c, i) ==> i in after)
    && (forall i :: i in after && !Stays(before, c, i) ==> after[i] in c.adds && FullBefore(after, i))
    && (forall l :: l in c.adds ==> exists i :: i in after && !Stays(before, c, i) && after[i] == l)
  }

  /** The shared state after a commit. */
  ghost predicate Committed(s: Shared, c: Commit, s': Shared) {
    && s'.epoch == s.epoch + 1
    && Carried(s.leaves, c, s'.leaves)
    && (forall i :: Get(s'.ids, i) == if i in s'.leaves then s'.leaves[i].cid else None)
    && (forall k :: Get(s'.announced, k) == if exists i :: i in s'.leaves && s'.leaves[i].sig == k then Get(s.announced, k) else None)
  }

  lemma {:induction false} UpdatesLand(leaves: map<nat, Leaf>, us: seq<Update>, k: nat)
    requires k < |us| && forall i, j :: 0 <= i < j < |us| ==> us[i].index != us[j].index
    ensures Get(WithUpdates(leaves, us), us[k].index) == Some(us[k].leaf)
    decreases |us|
  {
    var next := leaves[us[0].index := us[0].leaf];
    if k == 0 {
      assert forall u :: u in us[1..] ==> u.index != us[0].index;
      assert us[0].index in WithUpdates(next, us[1..]);
    } else {
      UpdatesLand(next, us[1..], k - 1);
    }
  }

  lemma {:induction false} UpdatesKeepKeys(leaves: map<nat, Leaf>, us: seq<Update>)
    requires forall u :: u in us ==> u.index in leaves
    ensures WithUpdates(leaves, us).Keys == leaves.Keys
    decreases |us|
  {
    if us != [] {
      var next := leaves[us[0].index := us[0].leaf];
      assert us[0] in us && next.Keys == leaves.Keys;
      assert forall u :: u in us[1..] ==> u in us;
      UpdatesKeepKeys(next, us[1..]);
    }
  }

  lemma {:induction false} FreeIsLeftmost(taken: set<nat>, from: nat)
    ensures forall j :: from <= j < FreeIndex(taken, from) ==> j in taken
    decreases |taken|
  {
    if from in taken {
      FreeIsLeftmost(taken - {from}, from + 1);
      forall j | from <= j < FreeIndex(taken, from) ensures j in taken {
        if j > from { assert j in taken - {from}; }
      }
    }
  }

  lemma {:induction false} AddsLand(leaves: map<nat, Leaf>, adds: seq<Leaf>)
    ensures var r := WithAdds(leaves, adds);
            && |r| == |leaves| + |adds|
            && (forall l :: l in adds ==> exists i :: i in r && i !in leaves && r[i] == l)
            && (forall i :: i in r && i !in leaves ==> FullBefore(r, i))
    decreases |adds|
  {
    if adds != [] {
      var i := FreeIndex(leaves.Keys, 0);
      FreeIsLeftmost(leaves.Keys, 0);
      var next := leaves[i := adds[0]];
      assert next.Keys == leaves.Keys + {i};
      KeyCount(leaves, i, adds[0]);
      AddsLand(next, adds[1..]);
      var r := WithAdds(leaves, adds);
      assert r == WithAdds(next, adds[1..]);
      hide WithAdds, FreeIndex;
      forall l | l in adds ensures exists x :: x in r && x !in leaves && r[x] == l {
        if l == adds[0] {
          assert i in r && r[i] == l;
        } else {
          assert l in adds[1..];
          var x :| x in r && x !in next && r[x] == l;
        }
      }
    }
  }

  lemma KeyCount(leaves: map<nat, Leaf>, i: nat, l: Leaf)
    requires i !in leaves
    ensures |leaves[i := l]| == |leaves| + 1
  {
    assert leaves[i := l].Keys == leaves.Keys + {i};
    assert |leaves[i := l]| == |leaves[i := l].Keys| && |leaves| == |leaves.Keys|;
  }

  /** Removing distinct positions. */
  lemma KeptCount(leaves: map<nat, Leaf>, kept: map<nat, Leaf>, removes: seq<nat>)
    requires NoDup(removes) && (forall i :: i in removes ==> i in leaves)
    requires forall i :: i in kept <==> i in leaves && i !in removes
    ensures |kept| + |removes| == |leaves|
  {
    var gone := SetOf(removes);
    DistinctCount(removes);
    assert kept.Keys == leaves.Keys - gone && gone <= leaves.Keys;
    assert |kept| == |kept.Keys| && |leaves| == |leaves.Keys|;
  }

  lemma {:induction false} DistinctCount(s: seq<nat>)
    requires NoDup(s)
    ensures |SetOf(s)| == |s|
  {
    if s != [] {
      var n := |s| - 1;
      DistinctCount(s[..n]);
      assert s == s[..n] + [s[n]];
      assert SetOf(s) == SetOf(s[..n]) + {s[n]};
      assert s[n] !in s[..n];
    }
  }

  lemma TreeCarries(s: Shared, c: Commit)
    requires MlsValid(s, c)
    ensures Carried(s.leaves, c, Tree(s.leaves, c))
  {
    hide WithUpdates, WithAdds, UniqueKeys, Updates, SendsPath, Carried;
    var updated := WithUpdates(s.leaves, c.updates);
    var kept := map i | i in updated && i !in c.removes :: updated[i];
    UpdatesKeepKeys(s.leaves, c.updates);
    KeptCount(s.leaves, kept, c.removes);
    AddsLand(kept, c.adds);
    UpdatedStay(s, c, kept);
    UntouchedStay(s, c, kept);
    AfterIs(s, c, kept, WithAdds(kept, c.adds), Tree(s.leaves, c));
  }

  lemma UpdatedStay(s: Shared, c: Commit, kept: map<nat, Leaf>)
    requires MlsValid(s, c)
    requires var updated := WithUpdates(s.leaves, c.updates); kept == map i | i in updated && i !in c.removes :: updated[i]
    ensures forall k :: 0 <= k < |c.updates| ==>
              Get(kept, c.updates[k].index) == Some(c.updates[k].leaf) && c.updates[k].index != c.sender.index
  {
    hide Tree, UniqueKeys;
    forall k | 0 <= k < |c.updates|
      ensures Get(kept, c.updates[k].index) == Some(c.updates[k].leaf) && c.updates[k].index != c.sender.index
    {
      UpdatesLand(s.leaves, c.updates, k);
      assert c.updates[k] in c.updates;
    }
  }

  lemma UntouchedStay(s: Shared, c: Commit, kept: map<nat, Leaf>)
    requires var updated := WithUpdates(s.leaves, c.updates); kept == map i | i in updated && i !in c.removes :: updated[i]
    ensures forall i :: Stays(s.leaves, c, i) && !Updates(c, i) ==> Get(kept, i) == Some(s.leaves[i])
  {
    forall i | Stays(s.leaves, c, i) && !Updates(c, i) ensures Get(kept, i) == Some(s.leaves[i]) {
      assert forall u :: u in c.updates ==> u.index != i;
    }
  }

  /** From the kept leaves: joiners go into free places, and the path leaf replaces the sender's. */
  lemma AfterIs(s: Shared, c: Commit, kept: map<nat, Leaf>, added: map<nat, Leaf>, after: map<nat, Leaf>)
    requires c.sender.FromMember? && c.sender.index in kept
    requires forall i :: i in kept <==> Stays(s.leaves, c, i)
    requires forall k :: 0 <= k < |c.updates| ==>
               Get(kept, c.updates[k].index) == Some(c.updates[k].leaf) && c.updates[k].index != c.sender.index
    requires forall i :: Stays(s.leaves, c, i) && !Updates(c, i) ==> Get(kept, i) == Some(s.leaves[i])
    requires |kept| + |c.removes| == |s.leaves| && |added| == |kept| + |c.adds|
    requires forall i :: i in kept ==> i in added && added[i] == kept[i]
    requires forall i :: i in added && i !in kept ==> added[i] in c.adds && FullBefore(added, i)
    requires forall l :: l in c.adds ==> exists i :: i in added && i !in kept && added[i] == l
    requires after == if c.path.Some? then added[c.sender.index := c.path.value] else added
    ensures Carried(s.leaves, c, after)
  {
    hide Remaining, Joined, Stays, Updates, FullBefore;
    assert after.Keys == added.Keys && |after| == |after.Keys| && |added| == |added.Keys|;
    JoinersIn(s.leaves, c, kept, added, after);
    assert forall i :: i in kept && !SendsPath(c, i) ==> Get(after, i) == Some(kept[i]);
    RemainersIn(s.leaves, c, kept, after);
  }

  lemma RemainersIn(before: map<nat, Leaf>, c: Commit, kept: map<nat, Leaf>, after: map<nat, Leaf>)
    requires c.sender.FromMember? && (c.path.Some? ==> Get(after, c.sender.index) == Some(c.path.value))
    requires forall i :: i in kept && !SendsPath(c, i) ==> Get(after, i) == Some(kept[i])
    requires forall k :: 0 <= k < |c.updates| ==>
               Get(kept, c.updates[k].index) == Some(c.updates[k].leaf) && c.updates[k].index != c.sender.index
    requires forall i :: Stays(before, c, i) && !Updates(c, i) ==> Get(kept, i) == Some(before[i])
    ensures Remaining(before, c, after)
  {
    forall i | Stays(before, c, i) && !Updates(c, i) && !SendsPath(c, i) ensures Get(after, i) == Some(before[i]) {
    }
    hide Updates, Stays;
    forall k | 0 <= k < |c.updates| ensures Get(after, c.updates[k].index) == Some(c.updates[k].leaf) {
      assert !SendsPath(c, c.updates[k].index);
    }
  }

  lemma JoinersIn(before: map<nat, Leaf>, c: Commit, kept: map<nat, Leaf>, added: map<nat, Leaf>, after: map<nat, Leaf>)
    requires c.sender.FromMember? && c.sender.index in kept && after.Keys == added.Keys
    requires forall i :: i in kept <==> Stays(before, c, i)
    requires forall i :: i in kept ==> i in added
    requires forall i :: i in added && i !in kept ==> added[i] in c.adds && FullBefore(added, i)
    requires forall l :: l in c.adds ==> exists i :: i in added && i !in kept && added[i] == l
    requires after == if c.path.Some? then added[c.sender.index := c.path.value] else added
    ensures Joined(before, c, after)
  {
    hide Stays;
    forall l | l in c.adds ensures exists i :: i in after && !Stays(before, c, i) && after[i] == l {
      var i :| i in added && i !in kept && added[i] == l;
      assert i in after && after[i] == l;
    }
  }

  lemma MergeCommits(s: Shared, c: Commit)
    requires MlsValid(s, c)
    ensures Committed(s, c, Merge(s, c))
  {
    TreeCarries(s, c);
    hide Tree, MlsValid, Carried;
    DerivedIs(s, Tree(s.leaves, c));
  }

  lemma DerivedIs(s: Shared, leaves: map<nat, Leaf>)
    ensures forall i :: Get(Ids(leaves), i) == if i in leaves then leaves[i].cid else None
    ensures forall k :: Get(Retain(s.announced, leaves), k)
                        == if exists i :: i in leaves && leaves[i].sig == k then Get(s.announced, k) else None
  {
  }

  // ------------------------------------------------------------------- one member

  /**
   A commit by somebody else. It is taken exactly if any observer would accept it; then the answer says whether an own
   staged commit was superseded, the staged one is gone, the shared state moves as told, and the member is out exactly
   if it was removed. Otherwise nothing moves.
   */
  lemma ForeignCommitEffect(m: Member, o: Object)
    requires m.active && HasCommit(o) && !(IsOwn(m, o.commit) && o.commit.epoch == m.shared.epoch)
    ensures var (m', r) := Process(m, o);
            && (r.Ok? <==> Accepts(m.shared, o))
            && (r.Ok? ==> r.value == (if m.pending == None then Applied else OwnCommitSuperseded)
                          && Committed(m.shared, o.commit, m'.shared)
                          && m' == m.(shared := m'.shared, pending := None, active := m.own !in o.commit.removes))
            && (r.Err? ==> m' == m)
  {
    if Accepts(m.shared, o) { MergeCommits(m.shared, o.commit); }
    hide Merge, MlsValid, ValidCommit, Committed;
  }

  /** The echo of an own commit: what was staged is merged, and the member goes on with the key it staged. */
  lemma OwnEchoEffect(m: Member, o: Object)
    requires m.active && MemberOk(m) && m.pending.Some?
    requires HasCommit(o) && IsOwn(m, o.commit) && o.commit.epoch == m.shared.epoch
    ensures var (m', r) := Process(m, o); var p := m.pending.value;
            && r == Ok(OwnCommitMerged)
            && Committed(m.shared, p.commit, m'.shared)
            && m'.signing == (if p.newSigner.Some? then p.newSigner.value else m.signing)
            && Get(m'.shared.leaves, m.own) == Some(Leaf(m'.signing, Some(m.cid), Some(m'.signing), true))
            && m' == m.(shared := m'.shared, pending := None, signing := m'.signing)
  {
    MergeCommits(m.shared, m.pending.value.commit);
    OwnTree(m.shared.leaves, m.pending.value.commit, m.own);
    hide Tree, MlsValid, Committed, Ids, Retain;
  }

  /** With no joiners and one removal, ids lose the removed leaf's and no other. */
  lemma OneIdGoes(s: Shared, c: Commit, s': Shared, t: nat)
    requires Committed(s, c, s') && s.ids == Ids(s.leaves) && c.adds == [] && c.removes == [t] && t in s.leaves
    requires forall k :: 0 <= k < |c.updates| ==> Get(s.ids, c.updates[k].index) == c.updates[k].leaf.cid
    requires c.path.Some? ==> c.sender.FromMember? && Get(s.ids, c.sender.index) == c.path.value.cid
    ensures t !in s'.leaves && s'.ids == s.ids - {t}
  {
    assert !Stays(s.leaves, c, t);
    forall i ensures Get(s'.ids, i) == Get(s.ids - {t}, i) {
      if i in s'.leaves {
        assert Stays(s.leaves, c, i);
        if Updates(c, i) {
          var k :| 0 <= k < |c.updates| && c.updates[k].index == i;
          assert Get(s'.leaves, i) == Some(c.updates[k].leaf);
        }
      }
    }
    SameLookups(s'.ids, s.ids - {t});
  }

  /** A foreign removal takes exactly the named credential's leaf out of every member's view. */
  lemma BundleRemovesNamed(m: Member, o: Object)
    requires m.active && TreeOk(m.shared) && o.Bundle? && o.commit.adds == []
    requires !(IsOwn(m, o.commit) && o.commit.epoch == m.shared.epoch) && Process(m, o).1.Ok?
    ensures |o.commit.removes| == 1
    ensures var m', t := Process(m, o).0, o.commit.removes[0];
            && Get(m.shared.ids, t) == Some(o.named)
            && t !in m'.shared.leaves && m'.shared.ids == m.shared.ids - {t}
  {
    hide Process, Committed, Accepts, MlsValid, ValidCommit;
    ForeignCommitEffect(m, o);
    var c := o.commit;
    AcceptedBundle(m.shared, o);
    IdsKept(m.shared, c);
    hide TreeOk;
    OneIdGoes(m.shared, c, Process(m, o).0.shared, c.removes[0]) by { IdsAre(m.shared); }
  }

  lemma IdsAre(s: Shared)
    requires TreeOk(s)
    ensures s.ids == Ids(s.leaves)
  {
  }

  lemma AcceptedBundle(s: Shared, o: Object)
    requires o.Bundle? && Accepts(s, o)
    ensures MlsValid(s, o.commit) && ValidCommit(s, o.commit)
    ensures |o.commit.removes| == 1 && o.commit.removes == [o.commit.removes[0]] && o.commit.sender.FromMember?
    ensures o.commit.removes[0] in s.leaves && Get(s.ids, o.commit.removes[0]) == Some(o.named)
  {
    hide Tree, ValidCommit, UniqueKeys;
    assert o.commit.removes[0] in o.commit.removes;
  }

  lemma IdsKept(s: Shared, c: Commit)
    requires TreeOk(s) && MlsValid(s, c) && ValidCommit(s, c)
    ensures forall k :: 0 <= k < |c.updates| ==> Get(s.ids, c.updates[k].index) == c.updates[k].leaf.cid
    ensures c.path.Some? ==> Get(s.ids, c.sender.index) == c.path.value.cid
  {
    hide Tree, UniqueKeys;
    forall k | 0 <= k < |c.updates| ensures Get(s.ids, c.updates[k].index) == c.updates[k].leaf.cid {
      assert c.updates[k] in c.updates;
      assert CheckLeafUpdate(s, c.updates[k].index, c.updates[k].leaf);
    }
  }

  /** So does the echo of an own removal. */
  lemma OwnRemovalEcho(m: Member, o: Object, t: nat)
    requires m.active && MemberOk(m) && m.pending.Some? && m.pending.value.commit.adds == [] && m.pending.value.commit.removes == [t]
    requires HasCommit(o) && IsOwn(m, o.commit) && o.commit.epoch == m.shared.epoch
    ensures var m' := Process(m, o).0; t !in m'.shared.leaves && m'.shared.ids == m.shared.ids - {t}
  {
    OwnEchoEffect(m, o);
    OwnIdKnown(m);
    var c := m.pending.value.commit;
    assert t in c.removes;
    assert t in m.shared.leaves;
    hide Process, Committed, MlsValid;
    OneIdGoes(m.shared, c, Process(m, o).0.shared, t);
  }

  // --------------------------------------------------------------- from staging on

  /** A place is the leftmost free one. */
  predicate Leftmost(leaves: map<nat, Leaf>, i: nat) {
    i !in leaves && forall j :: 0 <= j < i ==> j in leaves
  }

  /** What staging an act is meant to make of the tree. */
  ghost predicate Meant(m: Member, act: Act, after: map<nat, Leaf>) {
    match act
    case DoUpdate => after == m.shared.leaves[m.own := Leaf(m.signing, Some(m.cid), Some(m.signing), true)]
    case DoRotate(key) => after == m.shared.leaves[m.own := Leaf(key, Some(m.cid), Some(key), true)]
    case DoAdmit(joiner, expected) =>
      && joiner.cid == Some(expected) && expected !in m.shared.ids.Values
      && exists i :: Leftmost(m.shared.leaves, i)
                     && after == m.shared.leaves[m.own := Leaf(m.signing, Some(m.cid), Some(m.signing), true)][i := joiner]
    case DoRemove(named, target) =>
      && Get(m.shared.ids, target) == Some(named)
      && after == (m.shared.leaves - {target})[m.own := Leaf(m.signing, Some(m.cid), Some(m.signing), true)]
  }

  /** One staged commit at a time: with one waiting nothing is staged; a refusal changes nothing; a success only stages. */
  lemma StagedOneAtATime(m: Member, act: Act)
    ensures var (m1, r) := Perform(m, act);
            && (m.pending.Some? ==> r == Err(PendingCommit))
            && (r.Ok? ==> m.active && m1 == m.(pending := m1.pending) && m1.pending.Some?)
            && (r.Err? ==> m1 == m)
  {
    hide MlsValid, CheckNewLeaf;
  }

  /**
   From staging to everyone's state: whatever an honest member stages, once it comes back on the stream unrivalled, makes
   of the tree what was meant, for the member and for every observer of the same state; a key change once announced.
   */
  lemma StagedTakesEffect(m: Member, act: Act)
    requires m.active && MemberOk(m) && Perform(m, act).1.Ok? && (act.DoRotate? ==> act.newKey.holder == m.id)
    ensures var (m1, r) := Perform(m, act); var s' := Process(m1, r.value).0.shared;
            && s'.epoch == m.shared.epoch + 1 && Meant(m, act, s'.leaves)
            && (Observe(m.shared, r.value) == s' <==>
                (act.DoRotate? && act.newKey != m.signing ==> Get(m.shared.announced, m.signing) == Some(act.newKey)))
  {
    var (m1, r) := Perform(m, act);
    StagedOk(m, act);
    EchoAgreesExactly(m1, r.value);
    assert Process(m1, r.value).0 == FinishOwn(m1);
    hide Process, Observe, MemberOk, Frames;
    StagedTree(m, act);
    hide Perform, Tree;
  }

  lemma StagedOk(m: Member, act: Act)
    requires m.active && MemberOk(m) && Perform(m, act).1.Ok? && (act.DoRotate? ==> act.newKey.holder == m.id)
    ensures var (m1, r) := Perform(m, act);
            && m1 == m.(pending := m1.pending) && m1.pending.Some? && MemberOk(m1) && Frames(m1, m1.pending.value, r.value)
            && m1.pending.value.newSigner == if act.DoRotate? then Some(act.newKey) else None
  {
    hide MlsValid;
    StagedIsOwn(m, if act.DoAdmit? then act.expected else if act.DoRemove? then act.named else 0,
                if act.DoRemove? then act.target else 0,
                if act.DoAdmit? then act.joiner else OwnLeaf(m.signing, m.cid),
                if act.DoRotate? then act.newKey else m.signing);
    hide MemberOk, Frames;
  }

  lemma StagedTree(m: Member, act: Act)
    requires m.active && MemberOk(m) && Perform(m, act).1.Ok?
    ensures var m1 := Perform(m, act).0; m1.pending.Some? && Meant(m, act, Tree(m.shared.leaves, m1.pending.value.commit))
  {
    hide MlsValid, Tree;
    var leaves := m.shared.leaves;
    var c := Perform(m, act).0.pending.value.commit;
    if act.DoAdmit? {
      PlainTree(leaves, c, [act.joiner]);
      FreeIsLeftmost(leaves.Keys, 0);
      assert Leftmost(leaves, FreeIndex(leaves.Keys, 0));
    } else if act.DoRemove? {
      RemoveTree(leaves, c, act.target);
    } else {
      PlainTree(leaves, c, []);
    }
  }

  lemma PlainTree(leaves: map<nat, Leaf>, c: Commit, adds: seq<Leaf>)
    requires c.updates == [] && c.removes == [] && c.adds == adds && |adds| <= 1
    requires c.path.Some? && c.sender.FromMember? && c.sender.index in leaves
    ensures Tree(leaves, c) == if adds == [] then leaves[c.sender.index := c.path.value]
                               else leaves[c.sender.index := c.path.value][FreeIndex(leaves.Keys, 0) := adds[0]]
  {
    var updated := WithUpdates(leaves, c.updates);
    var kept := map i | i in updated && i !in c.removes :: updated[i];
    assert updated == leaves && kept == leaves;
    assert Tree(leaves, c) == WithAdds(leaves, adds)[c.sender.index := c.path.value];
    if adds == [] {
      assert WithAdds(leaves, adds) == leaves;
    } else {
      var i := FreeIndex(leaves.Keys, 0);
      assert adds[1..] == [] && WithAdds(leaves[i := adds[0]], []) == leaves[i := adds[0]];
      assert WithAdds(leaves, adds) == leaves[i := adds[0]];
      assert i != c.sender.index;
    }
  }

  lemma RemoveTree(leaves: map<nat, Leaf>, c: Commit, t: nat)
    requires c.updates == [] && c.removes == [t] && c.adds == [] && c.path.Some? && c.sender.FromMember?
    ensures Tree(leaves, c) == (leaves - {t})[c.sender.index := c.path.value]
  {
    var updated := WithUpdates(leaves, c.updates);
    var kept := map i | i in updated && i !in c.removes :: updated[i];
    assert updated == leaves && kept == leaves - {t};
  }

  // ------------------------------------------------------------------ whole streams

  /** Every leaf has a credential id and names its own signature key. */
  predicate WellFormed(leaves: map<nat, Leaf>) {
    forall i :: i in leaves ==> leaves[i].cid.Some? && leaves[i].groupKey == Some(leaves[i].sig) && leaves[i].basic
  }

  /** Whatever is on the stream, leaves stay well formed and ids are theirs. */
  lemma {:induction false} StreamKeepsForm(start: Shared, stream: seq<Object>)
    requires WellFormed(start.leaves) && forall i :: Get(start.ids, i) == if i in start.leaves then start.leaves[i].cid else None
    ensures var s := Canon(start, stream);
            WellFormed(s.leaves) && forall i :: Get(s.ids, i) == if i in s.leaves then s.leaves[i].cid else None
  {
    FormIsTreeOk(start);
    StreamTreeOk(start, stream);
    FormIsTreeOk(Canon(start, stream));
    hide TreeOk, WellFormed, Canon;
  }

  lemma FormIsTreeOk(s: Shared)
    ensures TreeOk(s) <==> WellFormed(s.leaves) && forall i :: Get(s.ids, i) == if i in s.leaves then s.leaves[i].cid else None
  {
    if forall i :: Get(s.ids, i) == if i in s.leaves then s.leaves[i].cid else None {
      assert forall i :: Get(Ids(s.leaves), i) == Get(s.ids, i);
      SameLookups(s.ids, Ids(s.leaves));
    }
  }

  lemma {:induction false} StreamTreeOk(start: Shared, stream: seq<Object>)
    requires TreeOk(start)
    ensures TreeOk(Canon(start, stream))
  {
    hide TreeOk, Observe;
    if stream != [] {
      var last := |stream| - 1;
      StreamTreeOk(start, stream[..last]);
      ObserveKeepsIds(Canon(start, stream[..last]), stream[last], 0);
    }
  }

  /** An announcement in force was in force at the start or is on the stream, signed with the old key. */
  lemma {:induction false} AnnouncementsComeFromStream(start: Shared, stream: seq<Object>, k: SigKey)
    ensures var a := Get(Canon(start, stream).announced, k);
            a.Some? ==> a == Get(start.announced, k) || Replace(a.value, k) in stream
  {
    if stream != [] {
      var last := |stream| - 1;
      var s, o := Canon(start, stream[..last]), stream[last];
      AnnouncementsComeFromStream(start, stream[..last], k);
      assert Get(Observe(s, o).announced, k).Some? ==>
          Get(Observe(s, o).announced, k) == Get(s.announced, k) || o == Replace(Observe(s, o).announced[k], k) by {
        hide Tree, Accepts;
      }
      hide Observe;
      assert forall x :: x in stream[..last] ==> x in stream;
    }
  }

  /** The leaf at `i` stays with a new key: then exactly that change was announced for the old key. */
  lemma KeyChangesAreAnnounced(start: Shared, stream: seq<Object>, n: nat, i: nat)
    requires n < |stream|
    requires var s := Canon(start, stream[..n]); var s' := Canon(start, stream[..n + 1]);
             && i in s.leaves && i in s'.leaves && s.leaves[i].sig != s'.leaves[i].sig
             && !RemovesLeaf(s, stream[n], i)
    ensures var s := Canon(start, stream[..n]); var s' := Canon(start, stream[..n + 1]);
            Get(start.announced, s.leaves[i].sig) == Some(s'.leaves[i].sig)
            || Replace(s'.leaves[i].sig, s.leaves[i].sig) in stream[..n]
  {
    CanonStep(start, stream, n);
    var s, s' := Canon(start, stream[..n]), Canon(start, stream[..n + 1]);
    hide Canon;
    AnnouncementsComeFromStream(start, stream[..n], s.leaves[i].sig);
    ChangedKey(s, stream[n], i);
  }

  lemma ChangedKey(s: Shared, o: Object, i: nat)
    requires i in s.leaves && !RemovesLeaf(s, o, i) && i in Observe(s, o).leaves && s.leaves[i].sig != Observe(s, o).leaves[i].sig
    ensures Get(s.announced, s.leaves[i].sig) == Some(Observe(s, o).leaves[i].sig)
  {
    if Accepts(s, o) && HasCommit(o) {
      var c := o.commit;
      TreeCarries(s, c);
      assert Stays(s.leaves, c, i);
      hide Tree, MlsValid;
      if Updates(c, i) {
        var k :| 0 <= k < |c.updates| && c.updates[k].index == i;
        assert c.updates[k] in c.updates;
        assert CheckLeafUpdate(s, i, c.updates[k].leaf);
      } else if SendsPath(c, i) {
        assert CheckLeafUpdate(s, i, c.path.value);
      }
    }
  }

  // ------------------------------------------------------------- what is accepted

  /** A leaf as it may enter the tree: with this credential id, naming its own key. */
  predicate Proper(l: Leaf, cid: Key) {
    l.cid == Some(cid) && l.groupKey == Some(l.sig) && l.basic
  }

  /** A member may take this leaf: its id as before, and its key as before or as announced for the old one. */
  predicate MayTake(s: Shared, i: nat, l: Leaf) {
    && i in s.leaves && l.cid.Some? && Proper(l, l.cid.value) && (i in s.ids ==> s.ids[i] == l.cid.value)
    && (l.sig == s.leaves[i].sig || Get(s.announced, s.leaves[i].sig) == Some(l.sig))
  }

  /** A commit by a member of this epoch, of nobody from outside, with leaves that may be taken and joiners that are new. */
  ghost predicate Rightful(s: Shared, c: Commit) {
    && c.epoch == s.epoch && !c.external
    && c.sender.FromMember? && c.sender.index in s.leaves && c.key == s.leaves[c.sender.index].sig
    && (forall k :: 0 <= k < |c.updates| ==> MayTake(s, c.updates[k].index, c.updates[k].leaf))
    && (c.path.Some? ==> MayTake(s, c.sender.index, c.path.value))
    && (forall k :: 0 <= k < |c.adds| ==>
          c.adds[k].cid.Some? && Proper(c.adds[k], c.adds[k].cid.value) && forall i :: i in s.ids ==> s.ids[i] != c.adds[k].cid.value)
  }

  /**
   What an observer accepts is rightful. A plain handshake removes nobody; a bundle removes exactly one leaf, which has the
   named credential, and its sidecar is for this group and signed with the committer's key. An announcement counts only
   if signed with the key of a leaf.
   */
  lemma AcceptedIsRightful(s: Shared, o: Object)
    requires Accepts(s, o)
    ensures HasCommit(o) ==> Rightful(s, o.commit)
    ensures o.Handshake? ==> o.commit.removes == []
    ensures o.Bundle? ==> o.ours && |o.commit.removes| == 1 && Get(s.ids, o.commit.removes[0]) == Some(o.named)
                          && o.commit.sender.FromMember? && o.commit.sender.index in s.leaves
                          && o.signedBy == s.leaves[o.commit.sender.index].sig
    ensures o.Replace? ==> exists i :: i in s.leaves && s.leaves[i].sig == o.signedBy
  {
    if HasCommit(o) { RightfulCommit(s, o.commit); }
    hide Tree, Rightful, ValidCommit, UniqueKeys;
  }

  lemma RightfulCommit(s: Shared, c: Commit)
    requires Acceptable(s, c)
    ensures Rightful(s, c)
  {
    hide Tree, UniqueKeys;
    forall k | 0 <= k < |c.updates| ensures MayTake(s, c.updates[k].index, c.updates[k].leaf) {
      assert c.updates[k] in c.updates;
      assert CheckLeafUpdate(s, c.updates[k].index, c.updates[k].leaf);
    }
    forall k | 0 <= k < |c.adds|
      ensures c.adds[k].cid.Some? && Proper(c.adds[k], c.adds[k].cid.value) && forall i :: i in s.ids ==> s.ids[i] != c.adds[k].cid.value
    {
      assert c.adds[k] in c.adds;
      assert CheckAdd(s, c.adds[k]);
      assert forall i :: i in s.ids ==> s.ids[i] in s.ids.Values;
    }
  }

  /** And the other way round: what is rightful, sound for the tree and framed as required is accepted. */
  lemma RightfulIsAccepted(s: Shared, o: Object)
    requires HasCommit(o) && Rightful(s, o.commit) && MlsValid(s, o.commit)
    requires o.Handshake? ==> o.commit.removes == []
    requires o.Bundle? ==> o.ours && |o.commit.removes| == 1 && Get(s.ids, o.commit.removes[0]) == Some(o.named)
                           && o.signedBy == s.leaves[o.commit.sender.index].sig
    ensures Accepts(s, o)
  {
    LeavesMayEnter(s, o.commit);
    hide Tree, MlsValid, ValidCommit, MayTake;
  }

  lemma LeavesMayEnter(s: Shared, c: Commit)
    requires Rightful(s, c)
    ensures ValidCommit(s, c)
  {
    forall u | u in c.updates ensures CheckLeafUpdate(s, u.index, u.leaf) {
      var k :| 0 <= k < |c.updates| && c.updates[k] == u;
      assert MayTake(s, c.updates[k].index, c.updates[k].leaf);
    }
    forall l | l in c.adds ensures CheckAdd(s, l) {
      var k :| 0 <= k < |c.adds| && c.adds[k] == l;
    }
    hide CheckLeafUpdate, CheckAdd;
    assert c.path.Some? ==> CheckLeafUpdate(s, c.sender.index, c.path.value) by { PathMayEnter(s, c); }
  }

  lemma PathMayEnter(s: Shared, c: Commit)
    requires Rightful(s, c)
    ensures c.path.Some? ==> CheckLeafUpdate(s, c.sender.index, c.path.value)
  {
  }
}
