/**
 One member's view of a hosted MLS group: the shared state every member derives from the stream, commit
 validation, and the member that stages its own commits and merges them only on the host's echo.
 The MLS layer is a tree of leaves and an epoch; a signature key carries who holds it.
 */
module Mls {
  import opened Basics

  // ------------------------------------------------------------------------ data

  datatype SigKey = SigKey(holder: int, nonce: int)

  // A leaf: its signature key, the credential id extension, the group signing key extension, and whether its
  // credential has the required shape.
  datatype Leaf = Leaf(sig: SigKey, cid: Option<Key>, groupKey: Option<SigKey>, basic: bool)

  datatype Sender = FromMember(index: nat) | FromOutside

  datatype Update = Update(index: nat, leaf: Leaf, key: SigKey)

  // A commit and the key it is signed with. `external` stands for an external or re-init proposal inside.
  datatype Commit = Commit(
    epoch: nat, sender: Sender, key: SigKey, external: bool,
    updates: seq<Update>, path: Option<Leaf>, adds: seq<Leaf>, removes: seq<nat>)

  // Stream objects. A bundle's sidecar names the credential to remove, is signed, and is bound to a group.
  datatype Object =
    | Handshake(commit: Commit)
    | Bundle(commit: Commit, named: Key, ours: bool, signedBy: SigKey)
    | Replace(newKey: SigKey, signedBy: SigKey)
    | Other

  // What all members share: epoch, tree, credential ids rebuilt from the tree, and announced key changes.
  datatype Shared = Shared(epoch: nat, leaves: map<nat, Leaf>, ids: map<nat, Key>, announced: map<SigKey, SigKey>)

  // ------------------------------------------------------------------------ tree

  /** The leftmost free position. */
  function FreeIndex(taken: set<nat>, from: nat): (i: nat)
    ensures from <= i && i !in taken
    decreases |taken|
  {
    if from !in taken then from
    else
      var i := FreeIndex(taken - {from}, from + 1);
      assert i !in taken by { assert i != from; }
      i
  }

  function WithUpdates(leaves: map<nat, Leaf>, updates: seq<Update>): (r: map<nat, Leaf>)
    ensures leaves.Keys <= r.Keys
    ensures forall i :: i in leaves && (forall u :: u in updates ==> u.index != i) ==> r[i] == leaves[i]
    decreases |updates|
  {
    if updates == [] then leaves
    else
      var u := updates[0];
      assert forall x :: x in updates[1..] ==> x in updates;
      WithUpdates(leaves[u.index := u.leaf], updates[1..])
  }

  function WithAdds(leaves: map<nat, Leaf>, adds: seq<Leaf>): (r: map<nat, Leaf>)
    ensures forall i :: i in leaves ==> i in r && r[i] == leaves[i]
    ensures forall i :: i in r && i !in leaves ==> r[i] in adds
    decreases |adds|
  {
    if adds == [] then leaves
    else
      var i := FreeIndex(leaves.Keys, 0);
      assert forall x :: x in adds[1..] ==> x in adds;
      WithAdds(leaves[i := adds[0]], adds[1..])
  }

  /** The tree after a commit: updates, removes, adds, then the sender's path leaf. */
  function Tree(leaves: map<nat, Leaf>, c: Commit): map<nat, Leaf> {
    var updated := WithUpdates(leaves, c.updates);
    var kept := map i | i in updated && i !in c.removes :: updated[i];
    var added := WithAdds(kept, c.adds);
    if c.path.Some? && c.sender.FromMember? then added[c.sender.index := c.path.value] else added
  }

  predicate UniqueKeys(leaves: map<nat, Leaf>) {
    forall i, j :: i in leaves && j in leaves && leaves[i].sig == leaves[j].sig ==> i == j
  }

  /** The MLS layer accepts the commit: right epoch, authentic sender and updates, sensible removes, distinct keys. */
  predicate MlsValid(s: Shared, c: Commit) {
    && c.epoch == s.epoch
    && c.sender.FromMember? && c.sender.index in s.leaves && s.leaves[c.sender.index].sig == c.key
    && (forall u :: u in c.updates ==>
          && u.index in s.leaves && u.key == s.leaves[u.index].sig
          && u.index != c.sender.index && u.index !in c.removes)
    && (forall i, j :: 0 <= i < j < |c.updates| ==> c.updates[i].index != c.updates[j].index)
    && NoDup(c.removes)
    && (forall i :: i in c.removes ==> i in s.leaves && i != c.sender.index)
    && UniqueKeys(Tree(s.leaves, c))
  }

  // ------------------------------------------------------------------ validation

  /** A leaf is valid iff it has a credential id and names its own signature key; the result is the id. */
  function CheckNewLeaf(l: Leaf): Option<Key> {
    if l.cid.Some? && l.groupKey == Some(l.sig) && l.basic then l.cid else None
  }

  /** A leaf keeps its credential id, and changes its key only to the one announced for it. */
  predicate CheckLeafUpdate(s: Shared, i: nat, l: Leaf) {
    && CheckNewLeaf(l).Some?
    && (i in s.ids ==> Some(s.ids[i]) == CheckNewLeaf(l))
    && i in s.leaves
    && (s.leaves[i].sig != l.sig ==> Get(s.announced, s.leaves[i].sig) == Some(l.sig))
  }

  /** A joiner brings a valid leaf with a credential id nobody has. */
  predicate CheckAdd(s: Shared, l: Leaf) {
    CheckNewLeaf(l).Some? && CheckNewLeaf(l).value !in s.ids.Values
  }

  predicate ValidCommit(s: Shared, c: Commit) {
    && (forall u :: u in c.updates ==> CheckLeafUpdate(s, u.index, u.leaf))
    && (c.path.Some? ==> c.sender.FromMember? && CheckLeafUpdate(s, c.sender.index, c.path.value))
    && (forall l :: l in c.adds ==> CheckAdd(s, l))
  }

  // ------------------------------------------------------------------- observers

  function Ids(leaves: map<nat, Leaf>): map<nat, Key> {
    map i | i in leaves && leaves[i].cid.Some? :: leaves[i].cid.value
  }

  function LiveKeys(leaves: map<nat, Leaf>): set<SigKey> {
    set i | i in leaves :: leaves[i].sig
  }

  function Retain(announced: map<SigKey, SigKey>, leaves: map<nat, Leaf>): map<SigKey, SigKey> {
    map k | k in announced && k in LiveKeys(leaves) :: announced[k]
  }

  /** Merge a commit and re-derive the host metadata from the new tree. */
  function Merge(s: Shared, c: Commit): Shared {
    var leaves := Tree(s.leaves, c);
    Shared(s.epoch + 1, leaves, Ids(leaves), Retain(s.announced, leaves))
  }

  predicate Acceptable(s: Shared, c: Commit) {
    MlsValid(s, c) && !c.external && ValidCommit(s, c)
  }

  /** The sidecar is for this group and signed by the committer. */
  predicate SidecarSigned(s: Shared, o: Object)
    requires o.Bundle?
  {
    && o.ours
    && o.commit.sender.FromMember? && o.commit.sender.index in s.leaves
    && o.signedBy == s.leaves[o.commit.sender.index].sig
  }

  /** The commit removes exactly the leaf with the named credential. */
  predicate SidecarNames(s: Shared, o: Object)
    requires o.Bundle?
  {
    |o.commit.removes| == 1 && Get(s.ids, o.commit.removes[0]) == Some(o.named)
  }

  /** What a member that did not make the object does with it. */
  predicate Accepts(s: Shared, o: Object) {
    match o
    case Handshake(c) => Acceptable(s, c) && c.removes == []
    case Bundle(c, _, _, _) => Acceptable(s, c) && SidecarSigned(s, o) && SidecarNames(s, o)
    case Replace(_, signedBy) => signedBy in LiveKeys(s.leaves)
    case Other => false
  }

  function Observe(s: Shared, o: Object): Shared {
    if !Accepts(s, o) then s
    else if o.Replace? then s.(announced := s.announced[o.signedBy := o.newKey])
    else Merge(s, o.commit)
  }

  // --------------------------------------------------------------------- members

  datatype PendingKind = UpdateOwn | AddOther | RemoveOther | RotateKey

  datatype Own = Own(kind: PendingKind, commit: Commit, newSigner: Option<SigKey>)

  datatype Member = Member(
    id: int, shared: Shared, active: bool, own: nat, cid: Key, signing: SigKey, pending: Option<Own>)

  datatype Outcome = Applied | OwnCommitMerged | OwnCommitSuperseded | Announced

  datatype MlsError =
    | WrongEpoch | OwnMessage | NotValid | ExternalJoin | UnframedRemove | BadBundle | BadLeaf
    | UnknownSigner | PendingCommit | NoSuchMember | Inactive

  type Reply<T> = Result<T, MlsError>

  function FinishOwn(m: Member): Member
    requires m.pending.Some?
  {
    var p := m.pending.value;
    m.(shared := Merge(m.shared, p.commit), pending := None,
       signing := if p.newSigner.Some? then p.newSigner.value else m.signing)
  }

  function MergeForeign(m: Member, c: Commit): (Member, Outcome) {
    (m.(shared := Merge(m.shared, c), pending := None, active := m.own !in c.removes),
     if m.pending.Some? then OwnCommitSuperseded else Applied)
  }

  /** The commit is this member's own, at this epoch. */
  predicate IsOwn(m: Member, c: Commit) {
    c.sender == FromMember(m.own) && m.own in m.shared.leaves && c.key == m.shared.leaves[m.own].sig
  }

  function ApplyHandshake(m: Member, c: Commit): (Member, Reply<Outcome>) {
    if c.epoch != m.shared.epoch then (m, Err(WrongEpoch))
    else if IsOwn(m, c) then
      if m.pending.Some? then (FinishOwn(m), Ok(OwnCommitMerged)) else (m, Err(OwnMessage))
    else if !MlsValid(m.shared, c) then (m, Err(NotValid))
    else if c.external then (m, Err(ExternalJoin))
    else if c.removes != [] then (m, Err(UnframedRemove))
    else if !ValidCommit(m.shared, c) then (m, Err(BadLeaf))
    else var (m1, out) := MergeForeign(m, c); (m1, Ok(out))
  }

  function ApplyBundle(m: Member, o: Object): (Member, Reply<Outcome>)
    requires o.Bundle?
  {
    var c := o.commit;
    if c.epoch != m.shared.epoch then (m, Err(WrongEpoch))
    else if IsOwn(m, c) then
      if m.pending.Some? then (FinishOwn(m), Ok(OwnCommitMerged)) else (m, Err(OwnMessage))
    else if !MlsValid(m.shared, c) then (m, Err(NotValid))
    else if !SidecarSigned(m.shared, o) then (m, Err(BadBundle))
    else if c.external then (m, Err(ExternalJoin))
    else if !SidecarNames(m.shared, o) then (m, Err(BadBundle))
    else if !ValidCommit(m.shared, c) then (m, Err(BadLeaf))
    else var (m1, out) := MergeForeign(m, c); (m1, Ok(out))
  }

  function ApplyReplace(m: Member, newKey: SigKey, signedBy: SigKey): (Member, Reply<Outcome>) {
    if signedBy !in LiveKeys(m.shared.leaves) then (m, Err(UnknownSigner))
    else (m.(shared := m.shared.(announced := m.shared.announced[signedBy := newKey])), Ok(Announced))
  }

  /** One stream object at one member. A member that was removed takes nothing more. */
  function Process(m: Member, o: Object): (Member, Reply<Outcome>) {
    if !m.active then (m, Err(Inactive))
    else match o
         case Handshake(c) => ApplyHandshake(m, c)
         case Bundle(_, _, _, _) => ApplyBundle(m, o)
         case Replace(newKey, signedBy) => ApplyReplace(m, newKey, signedBy)
         case Other => (m, Err(NotValid))
  }

  // --------------------------------------------------------------------- staging

  function OwnLeaf(sig: SigKey, cid: Key): Leaf {
    Leaf(sig, Some(cid), Some(sig), true)
  }

  function OwnCommit(m: Member, path: Leaf, adds: seq<Leaf>, removes: seq<nat>): Commit {
    Commit(m.shared.epoch, FromMember(m.own), m.signing, false, [], Some(path), adds, removes)
  }

  /** Stage a commit the MLS layer could build, if none is waiting. */
  function Stage(m: Member, own: Own, o: Object): (Member, Reply<Object>) {
    if m.pending.Some? then (m, Err(PendingCommit))
    else if !m.active || !MlsValid(m.shared, own.commit) then (m, Err(NotValid))
    else (m.(pending := Some(own)), Ok(o))
  }

  function SelfUpdate(m: Member): (Member, Reply<Object>) {
    var c := OwnCommit(m, OwnLeaf(m.signing, m.cid), [], []);
    Stage(m, Own(UpdateOwn, c, None), Handshake(c))
  }

  /** Stage a key change; the announcement to append before it is `Replace(newKey, m.signing)`. */
  function Rotate(m: Member, newKey: SigKey): (Member, Reply<Object>) {
    var c := OwnCommit(m, OwnLeaf(newKey, m.cid), [], []);
    Stage(m, Own(RotateKey, c, Some(newKey)), Handshake(c))
  }

  function Admit(m: Member, joiner: Leaf, expected: Key): (Member, Reply<Object>) {
    if m.pending.Some? then (m, Err(PendingCommit))
    else if CheckNewLeaf(joiner) != Some(expected) || expected in m.shared.ids.Values then (m, Err(BadLeaf))
    else
      var c := OwnCommit(m, OwnLeaf(m.signing, m.cid), [joiner], []);
      Stage(m, Own(AddOther, c, None), Handshake(c))
  }

  /** Stage a removal of the leaf `target`, found by its credential id. */
  function Remove(m: Member, named: Key, target: nat): (Member, Reply<Object>) {
    if m.pending.Some? then (m, Err(PendingCommit))
    else if Get(m.shared.ids, target) != Some(named) then (m, Err(NoSuchMember))
    else
      var c := OwnCommit(m, OwnLeaf(m.signing, m.cid), [], [target]);
      Stage(m, Own(RemoveOther, c, None), Bundle(c, named, true, m.signing))
  }

  function Discard(m: Member): Member {
    m.(pending := None)
  }
}
