/**
 Agreement of all members on one ordered stream: whatever each had staged, every honest member that has processed
 the same prefix holds the same epoch, tree, credential ids and announced keys.
 */
module MlsAgreement {
  import opened Basics
  import opened Mls

  // -------------------------------------------------------------- one member

  /** The commit only does what a staged commit of this member may do. */
  ghost predicate OwnShape(m: Member, p: Own) {
    var c := p.commit;
    && c == OwnCommit(m, OwnLeaf(if p.newSigner.Some? then p.newSigner.value else m.signing, m.cid), c.adds, c.removes)
    && MlsValid(m.shared, c)
    && (p.newSigner.Some? <==> p.kind == RotateKey)
    && (p.newSigner.Some? ==> p.newSigner.value.holder == m.id)
    && (forall l :: l in c.adds ==> CheckAdd(m.shared, l))
  }

  /** An honest active member: its leaf is the one it signs with, and what it staged fits the state it holds. */
  ghost predicate MemberOk(m: Member) {
    && m.own in m.shared.leaves
    && m.shared.leaves[m.own] == OwnLeaf(m.signing, m.cid)
    && m.signing.holder == m.id
    && m.shared.ids == Ids(m.shared.leaves)
    && (m.pending.Some? ==> OwnShape(m, m.pending.value))
  }

  /** The object a staged commit was handed out as. */
  ghost predicate Frames(m: Member, p: Own, o: Object) {
    match o
    case Handshake(c) => c == p.commit && c.removes == []
    case Bundle(c, named, ours, signedBy) =>
      c == p.commit && ours && signedBy == m.signing && SidecarNames(m.shared, o)
    case _ => false
  }

  /** Its key change has been announced. */
  predicate AnnouncedFor(s: Shared, m: Member, p: Own) {
    p.newSigner.Some? && p.newSigner != Some(m.signing) ==> Get(s.announced, m.signing) == p.newSigner
  }

  /** On its echo, a member merges what it staged; everyone else merges the same exactly when the key change was announced. */
  lemma EchoAgreesExactly(m: Member, o: Object)
    requires m.active && MemberOk(m) && m.pending.Some? && Frames(m, m.pending.value, o)
    ensures Process(m, o) == (FinishOwn(m), Ok(OwnCommitMerged))
    ensures Process(m, o).0.shared == Observe(m.shared, o) <==> AnnouncedFor(m.shared, m, m.pending.value)
  {
    hide Tree, Ids, Retain;
    var p := m.pending.value;
    var c := p.commit;
    assert IsOwn(m, c);
    assert CheckLeafUpdate(m.shared, m.own, c.path.value) <==> AnnouncedFor(m.shared, m, p) by { OwnIdKnown(m); }
    assert ValidCommit(m.shared, c) <==> AnnouncedFor(m.shared, m, p);
    assert Accepts(m.shared, o) <==> AnnouncedFor(m.shared, m, p);
    assert FinishOwn(m).shared.epoch == m.shared.epoch + 1;
  }

  lemma OwnIdKnown(m: Member)
    requires MemberOk(m)
    ensures Get(m.shared.ids, m.own) == Some(m.cid)
  {
  }

  /** An own commit that was dropped after it reached the stream splits the group: the member stays behind for good. */
  lemma DroppedCommitDiverges(m: Member, o: Object)
    requires m.active && MemberOk(m) && m.pending.Some? && Frames(m, m.pending.value, o)
    requires AnnouncedFor(m.shared, m, m.pending.value)
    ensures Process(Discard(m), o) == (Discard(m), Err(OwnMessage))
    ensures Observe(m.shared, o).epoch == m.shared.epoch + 1
  {
    EchoAgreesExactly(m, o);
    hide Tree, Ids, Retain, MlsValid, ValidCommit;
  }

  /** A joiner who did not see an announcement rejects the key change that everyone who saw it accepts. */
  lemma JoinerMissesAnnouncement(s: Shared, c: Commit)
    requires Accepts(s, Handshake(c)) && c.path.Some? && c.path.value.sig != s.leaves[c.sender.index].sig
    ensures !Accepts(s.(announced := map[]), Handshake(c))
  {
    assert CheckLeafUpdate(s, c.sender.index, c.path.value);
    hide Tree;
  }

  /** Nobody else's update proposals touch this member's leaf, and nobody else signs with its keys. */
  ghost predicate NotForging(c: Commit, id: int) {
    forall u :: u in c.updates ==> u.key.holder != id
  }

  /** A commit that neither removes nor updates a leaf, nor is its sender's, leaves the leaf alone. */
  lemma TreeSpares(leaves: map<nat, Leaf>, c: Commit, i: nat)
    requires i in leaves && i !in c.removes && c.sender != FromMember(i)
    requires forall u :: u in c.updates ==> u.index != i
    ensures i in Tree(leaves, c) && Tree(leaves, c)[i] == leaves[i]
  {
  }

  lemma OwnTree(leaves: map<nat, Leaf>, c: Commit, i: nat)
    requires c.sender == FromMember(i) && c.path.Some?
    ensures i in Tree(leaves, c) && Tree(leaves, c)[i] == c.path.value
  {
  }

  /** A foreign object moves an honest member exactly as it moves any observer, and keeps it sound unless it is removed. */
  lemma ForeignAgrees(m: Member, o: Object)
    requires m.active && MemberOk(m)
    requires o.Handshake? || o.Bundle? ==> !(IsOwn(m, o.commit) && o.commit.epoch == m.shared.epoch) && NotForging(o.commit, m.id)
    ensures Process(m, o).0.shared == Observe(m.shared, o)
    ensures Process(m, o).0.active ==> MemberOk(Process(m, o).0)
    ensures var m' := Process(m, o).0;
            m' == m.(shared := m'.shared, active := m'.active, pending := m'.pending)
    ensures var m' := Process(m, o).0;
            if m'.shared.epoch == m.shared.epoch then m'.pending == m.pending && m'.active else m'.pending.None? && m'.shared.epoch == m.shared.epoch + 1
  {
    if o.Handshake? || o.Bundle? {
      ForeignCommit(m, o);
    } else {
      hide Tree, MlsValid;
      var m' := Process(m, o).0;
      if m' != m { AnnouncementKeeps(m, m', o); }
    }
  }

  lemma AnnouncementKeeps(m: Member, m': Member, o: Object)
    requires MemberOk(m) && o.Replace? && m' == ApplyReplace(m, o.newKey, o.signedBy).0
    ensures MemberOk(m')
  {
    hide Tree, Ids;
    if m.pending.Some? {
      var c := m.pending.value.commit;
      assert MlsValid(m'.shared, c);
      assert forall l :: CheckAdd(m'.shared, l) <==> CheckAdd(m.shared, l);
    }
  }

  lemma ForeignCommit(m: Member, o: Object)
    requires m.active && MemberOk(m) && (o.Handshake? || o.Bundle?)
    requires !(IsOwn(m, o.commit) && o.commit.epoch == m.shared.epoch) && NotForging(o.commit, m.id)
    ensures var m' := Process(m, o).0;
            && m'.shared == Observe(m.shared, o)
            && (m'.active ==> MemberOk(m'))
            && m' == m.(shared := m'.shared, active := m'.active, pending := m'.pending)
            && (if m'.shared.epoch == m.shared.epoch then m'.pending == m.pending && m'.active
                else m'.pending.None? && m'.shared.epoch == m.shared.epoch + 1)
  {
    var c := o.commit;
    if Accepts(m.shared, o) {
      assert c.sender.index != m.own;
      if m.own !in c.removes {
        assert forall u :: u in c.updates ==> u.index != m.own;
        TreeSpares(m.shared.leaves, c, m.own);
      }
      hide Tree, ValidCommit, MlsValid;
      assert Process(m, o).0 == MergeForeign(m, c).0;
    } else {
      hide Tree, Merge;
      assert Process(m, o).0 == m;
    }
  }

  lemma OwnFinishKeeps(m: Member)
    requires MemberOk(m) && m.pending.Some?
    ensures MemberOk(FinishOwn(m)) && FinishOwn(m).shared.epoch == m.shared.epoch + 1
  {
    OwnTree(m.shared.leaves, m.pending.value.commit, m.own);
    hide Tree, MlsValid;
  }

  /** Whatever a member stages fits the state it holds and frames as the object it hands out. */
  lemma StagedIsOwn(m: Member, named: Key, target: nat, joiner: Leaf, newKey: SigKey)
    requires MemberOk(m) && newKey.holder == m.id
    ensures var (m1, r) := SelfUpdate(m); r.Ok? ==> MemberOk(m1) && Frames(m1, m1.pending.value, r.value)
    ensures var (m1, r) := Rotate(m, newKey); r.Ok? ==> MemberOk(m1) && Frames(m1, m1.pending.value, r.value)
    ensures var (m1, r) := Admit(m, joiner, named); r.Ok? ==> MemberOk(m1) && Frames(m1, m1.pending.value, r.value)
    ensures var (m1, r) := Remove(m, named, target); r.Ok? ==> MemberOk(m1) && Frames(m1, m1.pending.value, r.value)
  {
    hide MlsValid, Ids;
  }

  // ------------------------------------------------------------------ the group

  /** The state an observer derives from a stream. */
  ghost function Canon(start: Shared, stream: seq<Object>): Shared {
    if stream == [] then start else Observe(Canon(start, stream[..|stream| - 1]), stream[|stream| - 1])
  }

  // An honest member, how far it has read, the object it has staged, and where that was appended.
  datatype Seat = Seat(m: Member, pos: nat, draft: Option<Object>, at: Option<nat>)

  datatype Net = Net(start: Shared, stream: seq<Object>, seats: map<int, Seat>)

  datatype Act =
    | DoUpdate
    | DoRotate(newKey: SigKey)
    | DoAdmit(joiner: Leaf, expected: Key)
    | DoRemove(named: Key, target: nat)

  datatype Event =
    | Staged(id: int, act: Act)
    | Dropped(id: int)
    | AnnouncedKey(id: int)
    | Sent(id: int)
    | Took(id: int)
    | Injected(o: Object)

  ghost function Perform(m: Member, act: Act): (Member, Reply<Object>) {
    match act
    case DoUpdate => SelfUpdate(m)
    case DoRotate(newKey) => Rotate(m, newKey)
    case DoAdmit(joiner, expected) => Admit(m, joiner, expected)
    case DoRemove(named, target) => Remove(m, named, target)
  }

  predicate HasCommit(o: Object) {
    o.Handshake? || o.Bundle?
  }

  ghost predicate InStream(stream: seq<Object>, c: Commit) {
    exists k :: 0 <= k < |stream| && HasCommit(stream[k]) && stream[k].commit == c
  }

  /** Nobody signs with an honest member's keys; what an honest member streamed may be repeated in any framing. */
  ghost predicate Injectable(n: Net, o: Object) {
    HasCommit(o) ==> forall id :: id in n.seats ==>
                       NotForging(o.commit, id) && (o.commit.key.holder != id || InStream(n.stream, o.commit))
  }

  /** A key change is sent only once the stream's last word on the old key is this change. */
  ghost predicate MaySend(n: Net, s: Seat) {
    && s.draft.Some? && s.at.None? && s.m.active && s.m.pending.Some?
    && var end := Canon(n.start, n.stream);
       end.epoch == s.m.pending.value.commit.epoch ==> AnnouncedFor(end, s.m, s.m.pending.value)
  }

  function Reseat(n: Net, id: int, s: Seat): Net {
    n.(seats := n.seats[id := s])
  }

  ghost function TakeNext(s: Seat, o: Object): Seat {
    var m := Process(s.m, o).0;
    if m.pending.Some? then Seat(m, s.pos + 1, s.draft, s.at) else Seat(m, s.pos + 1, None, None)
  }

  /** The discipline: one staged commit at a time, dropped only while unsent, sent once, merged by reading the stream. */
  ghost predicate Next(n: Net, e: Event, n': Net) {
    match e
    case Injected(o) => Injectable(n, o) && n' == n.(stream := n.stream + [o])
    case Staged(id, act) =>
      && id in n.seats
      && (act.DoRotate? ==> act.newKey.holder == id)
      && var s := n.seats[id];
         var (m, r) := Perform(s.m, act);
         n' == if r.Ok? then Reseat(n, id, Seat(m, s.pos, Some(r.value), None)) else n
    case Dropped(id) =>
      id in n.seats && n.seats[id].at.None? && n' == Reseat(n, id, Seat(Discard(n.seats[id].m), n.seats[id].pos, None, None))
    case AnnouncedKey(id) =>
      && id in n.seats && n.seats[id].m.pending.Some? && n.seats[id].m.pending.value.newSigner.Some?
      && n' == n.(stream := n.stream + [Replace(n.seats[id].m.pending.value.newSigner.value, n.seats[id].m.signing)])
    case Sent(id) =>
      && id in n.seats && MaySend(n, n.seats[id])
      && n' == Reseat(n, id, n.seats[id].(at := Some(|n.stream|))).(stream := n.stream + [n.seats[id].draft.value])
    case Took(id) =>
      && id in n.seats && n.seats[id].pos < |n.stream|
      && n' == Reseat(n, id, TakeNext(n.seats[id], n.stream[n.seats[id].pos]))
  }

  // ---------------------------------------------------------------- the invariant

  /** What is staged is framed by the draft, and a sent draft lies ahead, announced if it changes the key. */
  ghost predicate DraftOk(start: Shared, stream: seq<Object>, s: Seat) {
    && (s.m.pending.Some? <==> s.draft.Some?)
    && (s.draft.Some? ==> Frames(s.m, s.m.pending.value, s.draft.value))
    && (s.at.Some? ==>
          && s.draft.Some? && s.pos <= s.at.value < |stream| && stream[s.at.value] == s.draft.value
          && var there := Canon(start, stream[..s.at.value]);
             there.epoch == s.m.shared.epoch ==> AnnouncedFor(there, s.m, s.m.pending.value))
  }

  /** Own commits behind are from past epochs; one ahead for this epoch is what was staged and sent. */
  ghost predicate OwnAhead(stream: seq<Object>, s: Seat) {
    forall k :: 0 <= k < |stream| && HasCommit(stream[k]) && stream[k].commit.key.holder == s.m.id ==>
      && stream[k].commit.epoch <= s.m.shared.epoch
      && (k < s.pos ==> stream[k].commit.epoch < s.m.shared.epoch)
      && (s.pos <= k && stream[k].commit.epoch == s.m.shared.epoch ==>
            s.at.Some? && s.m.pending.Some? && s.at.value <= k && stream[k].commit == s.m.pending.value.commit)
  }

  ghost predicate SeatOk(start: Shared, stream: seq<Object>, s: Seat) {
    && s.pos <= |stream|
    && (s.m.active ==>
          && s.m.shared == Canon(start, stream[..s.pos])
          && MemberOk(s.m) && DraftOk(start, stream, s) && OwnAhead(stream, s))
  }

  ghost predicate Unforged(stream: seq<Object>, ids: set<int>) {
    forall k, id :: 0 <= k < |stream| && HasCommit(stream[k]) && id in ids ==> NotForging(stream[k].commit, id)
  }

  ghost predicate NetOk(n: Net) {
    && Unforged(n.stream, n.seats.Keys)
    && forall id :: id in n.seats ==> n.seats[id].m.id == id && SeatOk(n.start, n.stream, n.seats[id])
  }

  // -------------------------------------------------------------------- each event

  lemma CanonStep(start: Shared, stream: seq<Object>, p: nat)
    requires p < |stream|
    ensures Canon(start, stream[..p + 1]) == Observe(Canon(start, stream[..p]), stream[p])
  {
    assert stream[..p + 1][..p] == stream[..p];
  }

  /** Appending behind a seat's back: fine unless it is an own commit the seat has not staged. */
  lemma AppendKeepsSeat(start: Shared, stream: seq<Object>, o: Object, s: Seat)
    requires SeatOk(start, stream, s)
    requires HasCommit(o) && o.commit.key.holder == s.m.id ==> InStream(stream, o.commit)
    ensures SeatOk(start, stream + [o], s)
  {
    var longer := stream + [o];
    assert longer[..s.pos] == stream[..s.pos];
    if s.m.active {
      if s.at.Some? { assert longer[..s.at.value] == stream[..s.at.value]; }
      hide Canon, MemberOk, Frames, AnnouncedFor;
      var n := |stream|;
      if HasCommit(o) && o.commit.key.holder == s.m.id {
        var k :| 0 <= k < |stream| && HasCommit(stream[k]) && stream[k].commit == o.commit;
        assert longer[n] == o;
      }
    }
  }

  lemma AppendKeepsUnforged(stream: seq<Object>, o: Object, ids: set<int>)
    requires Unforged(stream, ids) && (HasCommit(o) ==> forall id :: id in ids ==> NotForging(o.commit, id))
    ensures Unforged(stream + [o], ids)
  {
  }

  lemma InjectKeeps(n: Net, o: Object)
    requires NetOk(n) && Injectable(n, o)
    ensures NetOk(n.(stream := n.stream + [o]))
  {
    AppendKeepsUnforged(n.stream, o, n.seats.Keys);
    hide SeatOk, Unforged;
    forall id | id in n.seats ensures SeatOk(n.start, n.stream + [o], n.seats[id]) {
      AppendKeepsSeat(n.start, n.stream, o, n.seats[id]);
    }
  }

  lemma ReseatKeeps(n: Net, id: int, s: Seat)
    requires NetOk(n) && id in n.seats && s.m.id == id && SeatOk(n.start, n.stream, s)
    ensures NetOk(Reseat(n, id, s))
  {
    hide SeatOk, Unforged;
    assert n.seats[id := s].Keys == n.seats.Keys;
  }

  lemma StagedKeeps(n: Net, id: int, act: Act)
    requires NetOk(n) && id in n.seats && (act.DoRotate? ==> act.newKey.holder == id)
    ensures var s := n.seats[id]; var (m, r) := Perform(s.m, act);
            r.Ok? ==> NetOk(Reseat(n, id, Seat(m, s.pos, Some(r.value), None)))
  {
    var s := n.seats[id];
    var (m, r) := Perform(s.m, act);
    if r.Ok? {
      assert s.m.active && s.m.pending.None? && m == s.m.(pending := m.pending) && m.pending.Some? by {
        hide MlsValid, SeatOk;
      }
      assert SeatOk(n.start, n.stream, s);
      assert MemberOk(m) && Frames(m, m.pending.value, r.value) by {
        hide Canon, DraftOk, OwnAhead, MlsValid;
        StagedIsOwn(s.m, if act.DoAdmit? then act.expected else if act.DoRemove? then act.named else 0,
                    if act.DoRemove? then act.target else 0,
                    if act.DoAdmit? then act.joiner else OwnLeaf(s.m.signing, s.m.cid),
                    if act.DoRotate? then act.newKey else s.m.signing);
      }
      hide Perform, NetOk, MemberOk, Frames, Canon;
      var s' := Seat(m, s.pos, Some(r.value), None);
      assert SeatOk(n.start, n.stream, s');
      ReseatKeeps(n, id, s');
    }
  }

  lemma DroppedKeeps(n: Net, id: int)
    requires NetOk(n) && id in n.seats && n.seats[id].at.None?
    ensures NetOk(Reseat(n, id, Seat(Discard(n.seats[id].m), n.seats[id].pos, None, None)))
  {
    var s := n.seats[id];
    var s' := Seat(Discard(s.m), s.pos, None, None);
    assert SeatOk(n.start, n.stream, s) && s.m.id == id;
    assert SeatOk(n.start, n.stream, s') by { hide Canon, MlsValid, Frames; }
    hide SeatOk;
    ReseatKeeps(n, id, s');
  }

  lemma SentKeeps(n: Net, id: int)
    requires NetOk(n) && id in n.seats && MaySend(n, n.seats[id])
    ensures NetOk(Reseat(n, id, n.seats[id].(at := Some(|n.stream|))).(stream := n.stream + [n.seats[id].draft.value]))
  {
    var s := n.seats[id];
    var o := s.draft.value;
    var longer := n.stream + [o];
    assert SeatOk(n.start, n.stream, s);
    assert HasCommit(o) && o.commit == s.m.pending.value.commit && o.commit.updates == []
           && o.commit.key == s.m.signing && o.commit.epoch == s.m.shared.epoch && s.m.signing.holder == id;
    AppendKeepsUnforged(n.stream, o, n.seats.Keys);
    assert SeatOk(n.start, longer, s.(at := Some(|n.stream|))) by {
      assert longer[..s.pos] == n.stream[..s.pos] && longer[..|n.stream|] == n.stream;
      hide Canon, MemberOk, Frames, AnnouncedFor;
    }
    hide SeatOk, Unforged, MaySend;
    forall x | x in n.seats && x != id ensures SeatOk(n.start, longer, n.seats[x]) {
      AppendKeepsSeat(n.start, n.stream, o, n.seats[x]);
    }
    assert n.seats[id := s.(at := Some(|n.stream|))].Keys == n.seats.Keys;
  }

  /** Reading an own commit of this epoch: it is the draft, everyone accepts it, and the member merges it. */
  lemma OwnTaken(start: Shared, stream: seq<Object>, s: Seat)
    requires SeatOk(start, stream, s) && s.m.active && s.pos < |stream|
    requires var o := stream[s.pos]; HasCommit(o) && o.commit.key.holder == s.m.id && o.commit.epoch == s.m.shared.epoch
    ensures SeatOk(start, stream, TakeNext(s, stream[s.pos])) && TakeNext(s, stream[s.pos]).m.id == s.m.id
  {
    var o := stream[s.pos];
    assert s.at == Some(s.pos) && o == s.draft.value;
    hide MlsValid, Tree, Ids;
    EchoAgreesExactly(s.m, o);
    OwnFinishKeeps(s.m);
    CanonStep(start, stream, s.pos);
    hide Canon, Observe, Process, Merge, MemberOk;
    assert TakeNext(s, o) == Seat(FinishOwn(s.m), s.pos + 1, None, None);
  }

  lemma ForeignTaken(start: Shared, stream: seq<Object>, s: Seat)
    requires SeatOk(start, stream, s) && s.m.active && s.pos < |stream|
    requires var o := stream[s.pos];
             HasCommit(o) ==> NotForging(o.commit, s.m.id)
                              && !(o.commit.key.holder == s.m.id && o.commit.epoch == s.m.shared.epoch)
    ensures SeatOk(start, stream, TakeNext(s, stream[s.pos])) && TakeNext(s, stream[s.pos]).m.id == s.m.id
  {
    var o := stream[s.pos];
    ForeignAgrees(s.m, o);
    CanonStep(start, stream, s.pos);
    assert s.at.Some? ==> s.at.value != s.pos;
    var s' := TakeNext(s, o);
    hide Canon, Observe, Process, MlsValid;
    if s'.m.active {
      assert DraftOk(start, stream, s');
      hide MemberOk;
      assert OwnAhead(stream, s');
    }
  }

  lemma TookKeeps(n: Net, id: int)
    requires NetOk(n) && id in n.seats && n.seats[id].pos < |n.stream|
    ensures NetOk(Reseat(n, id, TakeNext(n.seats[id], n.stream[n.seats[id].pos])))
  {
    var s := n.seats[id];
    var o := n.stream[s.pos];
    assert SeatOk(n.start, n.stream, s) && s.m.id == id && (HasCommit(o) ==> NotForging(o.commit, id));
    hide NetOk, Unforged;
    if !s.m.active {
      assert TakeNext(s, o).m == s.m;
    } else if HasCommit(o) && o.commit.key.holder == id && o.commit.epoch == s.m.shared.epoch {
      OwnTaken(n.start, n.stream, s);
    } else {
      ForeignTaken(n.start, n.stream, s);
    }
    hide TakeNext;
    ReseatKeeps(n, id, TakeNext(s, o));
  }

  lemma NextKeeps(n: Net, e: Event, n': Net)
    requires NetOk(n) && Next(n, e, n')
    ensures NetOk(n') && n'.start == n.start && n.stream <= n'.stream && n'.seats.Keys == n.seats.Keys
  {
    hide NetOk, Injectable, MaySend, Perform, TakeNext;
    match e
    case Injected(o) => InjectKeeps(n, o);
    case Staged(id, act) => StagedKeeps(n, id, act);
    case Dropped(id) => DroppedKeeps(n, id);
    case AnnouncedKey(id) =>
      var o := Replace(n.seats[id].m.pending.value.newSigner.value, n.seats[id].m.signing);
      ReplaceInjectable(n, o);
      InjectKeeps(n, o);
    case Sent(id) => SentKeeps(n, id);
    case Took(id) => TookKeeps(n, id);
  }

  lemma ReplaceInjectable(n: Net, o: Object)
    requires o.Replace?
    ensures Injectable(n, o)
  {
  }

  // ------------------------------------------------------------------- whole runs

  ghost predicate IsRun(ns: seq<Net>, es: seq<Event>) {
    && |ns| == |es| + 1
    && forall i :: 0 <= i < |es| ==> Next(ns[i], es[i], ns[i + 1])
  }

  /** Members that start in one group state, with nothing staged and an empty stream. */
  ghost predicate Founded(n: Net) {
    && n.stream == []
    && forall id :: id in n.seats ==>
         && n.seats[id] == Seat(n.seats[id].m, 0, None, None)
         && n.seats[id].m.id == id && n.seats[id].m.pending.None?
         && n.seats[id].m.shared == n.start && MemberOk(n.seats[id].m)
  }

  lemma {:induction false} RunOk(ns: seq<Net>, es: seq<Event>)
    requires IsRun(ns, es) && Founded(ns[0])
    ensures NetOk(ns[|es|]) && ns[|es|].start == ns[0].start && ns[|es|].seats.Keys == ns[0].seats.Keys
  {
    if |es| == 0 {
      hide MemberOk, Canon;
      assert ns[0].stream[..0] == [] && Canon(ns[0].start, []) == ns[0].start by { CanonEmpty(ns[0].start); }
    } else {
      hide NetOk, Next, Founded;
      var n := |es| - 1;
      assert ns[..n + 1][n] == ns[n];
      RunOk(ns[..n + 1], es[..n]);
      NextKeeps(ns[n], es[n], ns[n + 1]);
    }
  }

  lemma CanonEmpty(start: Shared)
    ensures Canon(start, []) == start
  {
  }

  /**
   MLS agreement. In every run of honest members under the staging discipline, with anything at all injected that is
   not signed with their keys: every member still in the group holds exactly the state an observer derives from the
   objects it has read, so any two that have read equally far agree on epoch, leaves, credential ids and
   announced keys, whatever each has staged.
   */
  lemma MembersAgree(ns: seq<Net>, es: seq<Event>, a: int, b: int)
    requires IsRun(ns, es) && Founded(ns[0]) && a in ns[0].seats && b in ns[0].seats
    ensures var n := ns[|es|];
            && a in n.seats && b in n.seats
            && (n.seats[a].m.active ==>
                  n.seats[a].pos <= |n.stream| && n.seats[a].m.shared == Canon(n.start, n.stream[..n.seats[a].pos]))
            && (n.seats[a].m.active && n.seats[b].m.active && n.seats[a].pos == n.seats[b].pos ==>
                  n.seats[a].m.shared == n.seats[b].m.shared)
  {
    RunOk(ns, es);
    hide IsRun, Founded, MemberOk, Canon, DraftOk, OwnAhead;
  }

  // -------------------------------------------------------------- surviving leaves

  ghost predicate TreeOk(s: Shared) {
    s.ids == Ids(s.leaves) && forall i :: i in s.leaves ==> CheckNewLeaf(s.leaves[i]).Some?
  }

  ghost predicate RemovesLeaf(s: Shared, o: Object, i: nat) {
    Accepts(s, o) && HasCommit(o) && i in o.commit.removes
  }

  lemma {:induction false} UpdatedLeaf(leaves: map<nat, Leaf>, updates: seq<Update>, i: nat)
    requires i in leaves
    ensures WithUpdates(leaves, updates)[i] == leaves[i]
            || exists u :: u in updates && u.index == i && WithUpdates(leaves, updates)[i] == u.leaf
    decreases |updates|
  {
    if updates != [] {
      var u := updates[0];
      UpdatedLeaf(leaves[u.index := u.leaf], updates[1..], i);
      assert u in updates && forall x :: x in updates[1..] ==> x in updates;
    }
  }

  lemma {:induction false} UpdatedKeys(leaves: map<nat, Leaf>, updates: seq<Update>)
    requires forall u :: u in updates ==> u.index in leaves
    ensures WithUpdates(leaves, updates).Keys == leaves.Keys
    decreases |updates|
  {
    if updates != [] {
      var u := updates[0];
      assert u in updates && forall x :: x in updates[1..] ==> x in updates;
      assert leaves[u.index := u.leaf].Keys == leaves.Keys;
      UpdatedKeys(leaves[u.index := u.leaf], updates[1..]);
    }
  }

  /** A leaf that an accepted commit does not remove is still there with its credential id, and every leaf is valid. */
  lemma MergedLeaf(s: Shared, c: Commit, i: nat)
    requires TreeOk(s) && Acceptable(s, c)
    ensures i in Tree(s.leaves, c) ==> CheckNewLeaf(Tree(s.leaves, c)[i]).Some?
    ensures i in s.leaves && i !in c.removes ==>
              i in Tree(s.leaves, c) && Tree(s.leaves, c)[i].cid == s.leaves[i].cid
  {
    UpdatedKeys(s.leaves, c.updates);
    if i in s.leaves { UpdatedLeaf(s.leaves, c.updates, i); }
    if i in Tree(s.leaves, c) && c.path.Some? && i == c.sender.index {
      assert CheckLeafUpdate(s, i, c.path.value);
    }
    hide UniqueKeys;
  }

  lemma ObserveKeepsIds(s: Shared, o: Object, i: nat)
    requires TreeOk(s)
    ensures TreeOk(Observe(s, o))
    ensures i in s.leaves && !RemovesLeaf(s, o, i) ==>
              i in Observe(s, o).leaves && Observe(s, o).leaves[i].cid == s.leaves[i].cid
  {
    if Accepts(s, o) && HasCommit(o) {
      var c := o.commit;
      forall j ensures j in Tree(s.leaves, c) ==> CheckNewLeaf(Tree(s.leaves, c)[j]).Some? { MergedLeaf(s, c, j); }
      MergedLeaf(s, c, i);
      hide Tree, ValidCommit, MlsValid;
    } else {
      hide MlsValid, ValidCommit, Tree;
    }
  }

  ghost predicate EverRemoved(start: Shared, stream: seq<Object>, i: nat) {
    exists k :: 0 <= k < |stream| && RemovesLeaf(Canon(start, stream[..k]), stream[k], i)
  }

  /** Whatever is on the stream, a leaf that is never removed keeps the credential id it had. */
  lemma {:induction false} SurvivorKeepsCredential(start: Shared, stream: seq<Object>, i: nat)
    requires TreeOk(start) && i in start.leaves && !EverRemoved(start, stream, i)
    ensures var s := Canon(start, stream); TreeOk(s) && i in s.leaves && s.leaves[i].cid == start.leaves[i].cid
  {
    if stream != [] {
      var last := |stream| - 1;
      var before := stream[..last];
      hide RemovesLeaf, Observe, TreeOk;
      forall k | 0 <= k < |before| ensures !RemovesLeaf(Canon(start, before[..k]), before[k], i) {
        assert before[..k] == stream[..k] && before[k] == stream[k];
      }
      SurvivorKeepsCredential(start, before, i);
      ObserveKeepsIds(Canon(start, before), stream[last], i);
    }
  }
}
