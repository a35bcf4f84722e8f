/**
 The client's group object: applying stream objects, staging own commits, and rebuilding credential ids from the
 tree. Each method is proved to move the member exactly as the corresponding function of `Mls`.
 */
module MlsClient {
  import opened Basics
  import opened Mls

  class Group {
    const id: int
    const cid: Key
    var epoch: nat
    var leaves: map<nat, Leaf>
    var active: bool
    var own: nat
    var signing: SigKey
    var ids: map<nat, Key>
    var announced: map<SigKey, SigKey>
    var pending: Option<Own>

    function View(): Member
      reads this
    {
      Member(id, Shared(epoch, leaves, ids, announced), active, own, cid, signing, pending)
    }

    /** What the MLS layer guarantees of a commit it built and still holds. */
    ghost predicate StagedFits()
      reads this
    {
      pending.Some? ==> MlsValid(View().shared, pending.value.commit)
    }

    /** Rebuild credential ids by signature key from the exported tree, and forget announcements for keys that left. */
    method SyncCredentialIds()
      requires UniqueKeys(leaves)
      modifies this`ids, this`announced
      ensures ids == Ids(leaves) && announced == Retain(old(announced), leaves)
    {
      var bySig := KeysToIds(leaves);
      var fresh_: map<nat, Key> := map[];
      var live: set<SigKey> := {};
      var todo := leaves.Keys;
      while todo != {}
        invariant todo <= leaves.Keys && announced == old(announced)
        invariant forall i :: Get(fresh_, i) == if i in todo then None else Get(Ids(leaves), i)
        invariant forall k :: k in live <==> exists i :: i in leaves && i !in todo && leaves[i].sig == k
        decreases todo
      {
        var i := Pick(todo);
        todo := todo - {i};
        live := live + {leaves[i].sig};
        if leaves[i].sig in bySig { fresh_ := fresh_[i := bySig[leaves[i].sig]]; }
      }
      forall i ensures Get(fresh_, i) == Get(Ids(leaves), i) {
      }
      SameLookups(fresh_, Ids(leaves));
      ids := fresh_;
      assert forall k :: k in live <==> k in LiveKeys(leaves);
      assert live == LiveKeys(leaves);
      announced := map k | k in announced && k in live :: announced[k];
    }

    /** The announcement is credited to whichever member's current key verifies it. */
    method ApplySigningKeyReplace(newKey: SigKey, signedBy: SigKey) returns (r: Reply<Outcome>)
      modifies this`announced
      ensures (View(), r) == ApplyReplace(old(View()), newKey, signedBy)
    {
      var todo := leaves.Keys;
      while todo != {}
        invariant todo <= leaves.Keys && announced == old(announced)
        invariant forall i :: i in leaves && i !in todo ==> leaves[i].sig != signedBy
        decreases todo
      {
        var i := Pick(todo);
        todo := todo - {i};
        if leaves[i].sig == signedBy {
          announced := announced[signedBy := newKey];
          return Ok(Announced);
        }
      }
      return Err(UnknownSigner);
    }

    method CheckUpdate(i: nat, leaf: Leaf) returns (ok: bool)
      ensures ok <==> CheckLeafUpdate(View().shared, i, leaf)
    {
      var c := CheckNewLeaf(leaf);
      if c.None? { return false; }
      if i in ids && ids[i] != c.value { return false; }
      if i !in leaves { return false; }
      if leaves[i].sig != leaf.sig {
        return leaves[i].sig in announced && announced[leaves[i].sig] == leaf.sig;
      }
      return true;
    }

    /** Leaf updates, the path leaf, then the joiners, stopping at the first violation. */
    method Validate(c: Commit) returns (ok: bool)
      ensures ok <==> ValidCommit(View().shared, c)
    {
      for k := 0 to |c.updates|
        invariant forall j :: 0 <= j < k ==> CheckLeafUpdate(View().shared, c.updates[j].index, c.updates[j].leaf)
      {
        assert c.updates[k] in c.updates;
        var good := CheckUpdate(c.updates[k].index, c.updates[k].leaf);
        if !good { return false; }
      }
      if c.path.Some? {
        if !c.sender.FromMember? { return false; }
        var good := CheckUpdate(c.sender.index, c.path.value);
        if !good { return false; }
      }
      for k := 0 to |c.adds|
        invariant forall j :: 0 <= j < k ==> CheckAdd(View().shared, c.adds[j])
      {
        var joiner := CheckNewLeaf(c.adds[k]);
        assert c.adds[k] in c.adds;
        if joiner.None? || joiner.value in ids.Values { return false; }
      }
      return true;
    }

    method FinishOwnCommit()
      requires pending.Some? && StagedFits()
      modifies this
      ensures View() == FinishOwn(old(View()))
    {
      hide Tree;
      var p := pending.value;
      epoch, leaves := epoch + 1, Tree(leaves, p.commit);
      pending := None;
      if p.newSigner.Some? { signing := p.newSigner.value; }
      SyncCredentialIds();
    }

    method MergeStaged(c: Commit) returns (out: Outcome)
      requires MlsValid(View().shared, c)
      modifies this
      ensures (View(), out) == MergeForeign(old(View()), c)
    {
      hide Tree;
      var hadPending := pending.Some?;
      epoch, leaves := epoch + 1, Tree(leaves, c);
      active := own !in c.removes;
      pending := None;
      SyncCredentialIds();
      return if hadPending then OwnCommitSuperseded else Applied;
    }

    method TakeHandshake(c: Commit) returns (r: Reply<Outcome>)
      requires StagedFits()
      modifies this
      ensures (View(), r) == ApplyHandshake(old(View()), c)
    {
      hide MlsValid, ValidCommit, FinishOwn, MergeForeign;
      if c.epoch != epoch { return Err(WrongEpoch); }
      if c.sender == FromMember(own) && own in leaves && c.key == leaves[own].sig {
        if pending.None? { return Err(OwnMessage); }
        FinishOwnCommit();
        return Ok(OwnCommitMerged);
      }
      if !MlsValid(View().shared, c) { return Err(NotValid); }
      if c.external { return Err(ExternalJoin); }
      if |c.removes| > 0 { return Err(UnframedRemove); }
      var ok := Validate(c);
      if !ok { return Err(BadLeaf); }
      var out := MergeStaged(c);
      return Ok(out);
    }

    method TakeBundle(o: Object) returns (r: Reply<Outcome>)
      requires o.Bundle? && StagedFits()
      modifies this
      ensures (View(), r) == ApplyBundle(old(View()), o)
    {
      hide MlsValid, ValidCommit, FinishOwn, MergeForeign, SidecarSigned, SidecarNames;
      var c := o.commit;
      if c.epoch != epoch { return Err(WrongEpoch); }
      if c.sender == FromMember(own) && own in leaves && c.key == leaves[own].sig {
        if pending.None? { return Err(OwnMessage); }
        FinishOwnCommit();
        return Ok(OwnCommitMerged);
      }
      if !MlsValid(View().shared, c) { return Err(NotValid); }
      if !SidecarSigned(View().shared, o) { return Err(BadBundle); }
      if c.external { return Err(ExternalJoin); }
      if !SidecarNames(View().shared, o) { return Err(BadBundle); }
      var ok := Validate(c);
      if !ok { return Err(BadLeaf); }
      var out := MergeStaged(c);
      return Ok(out);
    }

    method StageUpdate() returns (r: Reply<Object>)
      modifies this`pending
      ensures (View(), r) == SelfUpdate(old(View()))
    {
      if pending.Some? { return Err(PendingCommit); }
      var c := OwnCommit(View(), OwnLeaf(signing, cid), [], []);
      if !active || !MlsValid(View().shared, c) { return Err(NotValid); }
      pending := Some(Own(UpdateOwn, c, None));
      return Ok(Handshake(c));
    }

    method StageRotation(newKey: SigKey) returns (r: Reply<Object>)
      modifies this`pending
      ensures (View(), r) == Rotate(old(View()), newKey)
    {
      if pending.Some? { return Err(PendingCommit); }
      var c := OwnCommit(View(), OwnLeaf(newKey, cid), [], []);
      if !active || !MlsValid(View().shared, c) { return Err(NotValid); }
      pending := Some(Own(RotateKey, c, Some(newKey)));
      return Ok(Handshake(c));
    }

    method StageAdmission(joiner: Leaf, expected: Key) returns (r: Reply<Object>)
      modifies this`pending
      ensures (View(), r) == Admit(old(View()), joiner, expected)
    {
      if pending.Some? { return Err(PendingCommit); }
      if CheckNewLeaf(joiner) != Some(expected) || expected in ids.Values { return Err(BadLeaf); }
      var c := OwnCommit(View(), OwnLeaf(signing, cid), [joiner], []);
      if !active || !MlsValid(View().shared, c) { return Err(NotValid); }
      pending := Some(Own(AddOther, c, None));
      return Ok(Handshake(c));
    }

    /** Find some leaf with the credential and stage its removal. */
    method StageRemoval(named: Key) returns (r: Reply<Object>, ghost target: nat)
      modifies this`pending
      ensures (View(), r) == Remove(old(View()), named, target)
    {
      target := 0;
      if pending.Some? { return Err(PendingCommit), 0; }
      var todo := ids.Keys;
      while todo != {}
        invariant todo <= ids.Keys && pending == old(pending)
        invariant forall i :: i in ids && i !in todo ==> ids[i] != named
        decreases todo
      {
        var i := Pick(todo);
        todo := todo - {i};
        if ids[i] == named {
          var c := OwnCommit(View(), OwnLeaf(signing, cid), [], [i]);
          if !active || !MlsValid(View().shared, c) { return Err(NotValid), i; }
          pending := Some(Own(RemoveOther, c, None));
          return Ok(Bundle(c, named, true, signing)), i;
        }
      }
      return Err(NoSuchMember), 0;
    }

    method DiscardPending()
      modifies this`pending
      ensures View() == Discard(old(View()))
    {
      pending := None;
    }
  }

  /** Signature key to credential id, over all leaves. */
  method KeysToIds(leaves: map<nat, Leaf>) returns (bySig: map<SigKey, Key>)
    requires UniqueKeys(leaves)
    ensures forall i :: i in leaves ==> Get(bySig, leaves[i].sig) == leaves[i].cid
  {
    bySig := map[];
    var todo := leaves.Keys;
    while todo != {}
      invariant todo <= leaves.Keys
      invariant forall i :: i in leaves ==> Get(bySig, leaves[i].sig) == if i in todo then None else leaves[i].cid
      decreases todo
    {
      var i := Pick(todo);
      todo := todo - {i};
      if leaves[i].cid.Some? { bySig := bySig[leaves[i].sig := leaves[i].cid.value]; }
    }
  }
}
