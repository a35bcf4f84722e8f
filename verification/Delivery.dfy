/**
 End-to-end delivery: one mailbox on the home server together with the client that fetches it, works through
 the rows with a retry budget, moves its cursor and acknowledges.
 */
module Delivery {
  import opened Basics
  import opened HomeState
  import opened HomeRun
  import opened Retention
  import opened HomeServers
  import Lifetimes

  const FETCH_LIMIT: nat := 64
  const MAILBOX_MLS_RETRIES: nat := 8
  const U8_MAX: nat := 255

  // What applying one row to the client's group state says about it.
  datatype Fate = Done | Retry

  datatype Client = Client(cursor: nat, retries: map<nat, nat>)

  /** A hole after the last finished row is loss, not delay. */
  predicate MessagesLost(lastAcked: nat, firstFetched: nat) {
    firstFetched > SatAdd(lastAcked, 1)
  }

  /** Failed attempts recorded for a row. */
  function Failures(retries: map<nat, nat>, s: nat): nat {
    if s in retries then retries[s] else 0
  }

  function Bump(retries: map<nat, nat>, s: nat): nat {
    Min(Failures(retries, s) + 1, U8_MAX)
  }

  // The outcome of working through a batch: the retry table, how many rows from the front are finished (applied,
  // or given up after the last retry) and how many were attempted.
  datatype Walked = Walked(retries: map<nat, nat>, finished: nat, attempted: nat)

  function Walk(retries: map<nat, nat>, rows: seq<nat>, fates: seq<Fate>): (w: Walked)
    requires |fates| == |rows|
    ensures w.finished <= w.attempted <= |rows| && w.attempted <= w.finished + 1
    ensures w.attempted == |rows| || w.attempted == w.finished + 1
    decreases |rows|
  {
    if rows == [] then Walked(retries, 0, 0)
    else if fates[0] == Done || Bump(retries, rows[0]) >= MAILBOX_MLS_RETRIES then
      var w := Walk(retries - {rows[0]}, rows[1..], fates[1..]);
      Walked(w.retries, w.finished + 1, w.attempted + 1)
    else Walked(retries[rows[0] := Bump(retries, rows[0])], 0, 1)
  }

  function Seqs(batch: seq<StoredEnvelope>): (r: seq<nat>)
    ensures |r| == |batch| && forall i :: 0 <= i < |r| ==> r[i] == batch[i].seqNo
  {
    seq(|batch|, i requires 0 <= i < |batch| => batch[i].seqNo)
  }

  function Worked(c: Client, rows: seq<nat>, fates: seq<Fate>): Client
    requires |fates| == |rows|
  {
    var w := Walk(c.retries, rows, fates);
    Client(if w.finished == 0 then c.cursor else rows[w.finished - 1], w.retries)
  }

  /** `w` counted from `i` rows earlier. */
  function After(w: Walked, i: nat): Walked {
    Walked(w.retries, i + w.finished, i + w.attempted)
  }

  lemma WalkOne(retries: map<nat, nat>, rows: seq<nat>, fates: seq<Fate>, i: nat)
    requires |fates| == |rows| && i < |rows|
    ensures var s := rows[i]; var w := Walk(retries, rows[i..], fates[i..]); var n := Bump(retries, s);
            && After(w, i) == (if fates[i] == Done || n >= MAILBOX_MLS_RETRIES
                              then After(Walk(retries - {s}, rows[i + 1..], fates[i + 1..]), i + 1)
                              else Walked(retries[s := n], i, i + 1))
            && retries[s := n] - {s} == retries - {s}
  {
    assert rows[i..][1..] == rows[i + 1..] && fates[i..][1..] == fates[i + 1..];
  }

  lemma WalkNone(retries: map<nat, nat>, rows: seq<nat>, fates: seq<Fate>)
    requires |fates| == |rows|
    ensures Walk(retries, rows[|rows|..], fates[|rows|..]) == Walked(retries, 0, 0)
  {
  }

  /** The client side of `fetch_now`. */
  class Session {
    var cursor: nat
    var retries: map<nat, nat>

    function View(): Client
      reads this
    {
      Client(cursor, retries)
    }

    /** Take a fetched batch, with the fate each row would meet; report loss and how many rows are finished. */
    method FetchNow(batch: seq<StoredEnvelope>, fates: seq<Fate>) returns (lost: bool, finished: nat)
      requires |fates| == |batch|
      modifies this
      ensures View() == Worked(old(View()), Seqs(batch), fates)
      ensures finished == Walk(old(retries), Seqs(batch), fates).finished
      ensures lost <==> batch != [] && MessagesLost(old(cursor), batch[0].seqNo)
    {
      hide Walk;
      var lastAcked := cursor;
      assert Seqs(batch)[0..] == Seqs(batch) && fates[0..] == fates;
      if batch == [] {
        WalkNone(retries, Seqs(batch), fates);
        return false, 0;
      }
      cursor := batch[|batch| - 1].seqNo;
      lost := MessagesLost(lastAcked, batch[0].seqNo);
      var ackUpTo := lastAcked;
      ghost var rows := Seqs(batch);
      ghost var w := Walk(retries, rows, fates);
      finished := 0;
      var i := 0;
      while i < |batch|
        invariant finished == i <= |batch|
        invariant ackUpTo == if i == 0 then lastAcked else rows[i - 1]
        invariant w == After(Walk(retries, rows[i..], fates[i..]), i)
      {
        WalkOne(retries, rows, fates, i);
        var s := batch[i].seqNo;
        if fates[i] == Done {
          retries := retries - {s};
        } else {
          var n := if s in retries then retries[s] else 0;
          n := Min(n + 1, U8_MAX);
          retries := retries[s := n];
          if n < MAILBOX_MLS_RETRIES {
            assert w == Walked(retries, i, i + 1);
            break;
          }
          retries := retries - {s};
        }
        ackUpTo, finished, i := s, i + 1, i + 1;
      }
      WalkNone(retries, rows, fates);
      cursor := ackUpTo;
    }
  }

  // ------------------------------------------------------------ the whole system

  // One owner's mailbox and client, with the record of what happened: rows finished, rows attempted, and rows
  // that left the mailbox other than by acknowledgement.
  datatype System = System(
    home: Home, owner: Key, client: Client, finished: seq<nat>, tries: seq<nat>, dropped: set<nat>)

  datatype Event =
    | AtServer(op: Op)
    | Fetch(batch: seq<StoredEnvelope>, fates: seq<Fate>)
    | AckArrives(upTo: U64)

  function Rows(y: System): map<nat, StoredEnvelope> {
    if y.owner in y.home.mailboxes then y.home.mailboxes[y.owner].rows else map[]
  }

  function NextSeq(y: System): nat {
    if y.owner in y.home.mailboxes then y.home.mailboxes[y.owner].nextSeq else 1
  }

  function Numbers(a: nat, b: nat): (r: set<nat>)
    ensures forall s :: s in r <==> a <= s < b
    decreases b - a
  {
    if a >= b then {} else {a} + Numbers(a + 1, b)
  }

  /** Rows held before, or numbered in this step, that are gone after it. */
  function Vanished(m: Mailbox, m': Mailbox): set<nat> {
    (m.rows.Keys + Numbers(m.nextSeq, m'.nextSeq)) - m'.rows.Keys
  }

  /**
   Anything at the server except this owner's acknowledgements; a fetch whose answer arrives; an
   acknowledgement the client sent now or earlier. A lost answer is a server-side collection alone, and a lost
   acknowledgement is one that never arrives.
   */
  ghost predicate Next(y: System, e: Event, y': System)
    requires y.owner in y.home.mailboxes
  {
    match e
    case AtServer(op) =>
      && Admissible(y.home, op) && !(op.OpAck? && op.owner == y.owner)
      && y.owner in y'.home.mailboxes
      && y' == y.(home := Step(y.home, op),
                  dropped := y.dropped + Vanished(y.home.mailboxes[y.owner], y'.home.mailboxes[y.owner]))
    case Fetch(batch, fates) =>
      && |fates| == |batch|
      && var h := Gc(y.home, y.owner);
      && y.owner in h.mailboxes
      && IsBatch(h.mailboxes[y.owner].rows, y.client.cursor, h.now, FETCH_LIMIT, batch)
      && var w := Walk(y.client.retries, Seqs(batch), fates);
      && y' == System(h, y.owner, Worked(y.client, Seqs(batch), fates),
                      y.finished + Seqs(batch)[..w.finished], y.tries + Seqs(batch)[..w.attempted],
                      y.dropped + Vanished(y.home.mailboxes[y.owner], h.mailboxes[y.owner]))
    case AckArrives(upTo) =>
      && upTo <= y.client.cursor
      && y' == y.(home := Ack(y.home, y.owner, upTo).0)
  }

  // ------------------------------------------------------------------ invariants

  ghost predicate Increasing(s: seq<nat>) {
    forall i, j :: 0 <= i < j < |s| ==> s[i] < s[j]
  }

  /** Nothing after the cursor disappears unrecorded. */
  ghost predicate Tracked(y: System) {
    && Valid(y.home) && y.owner in y.home.mailboxes
    && y.client.cursor < NextSeq(y)
    && (forall s :: y.client.cursor < s < NextSeq(y) ==> s in Rows(y) || s in y.dropped)
  }

  /** Finished rows are in order, end at the cursor, and only recorded losses are missing. */
  ghost predicate InOrder(y: System) {
    && Increasing(y.finished)
    && (forall s :: s in y.finished ==> 1 <= s <= y.client.cursor)
    && (forall s :: 1 <= s <= y.client.cursor ==> s in y.finished || s in y.dropped)
  }

  /** Every recorded count is below the budget. */
  ghost predicate Small(retries: map<nat, nat>) {
    forall s :: s in retries ==> retries[s] < MAILBOX_MLS_RETRIES
  }

  /** The retry table counts exactly the attempts on rows that are not finished. */
  ghost predicate Budgeted(y: System) {
    && Small(y.client.retries)
    && (forall s :: s > y.client.cursor ==> multiset(y.tries)[s] == Failures(y.client.retries, s))
    && (forall s :: multiset(y.tries)[s] <= MAILBOX_MLS_RETRIES)
  }

  ghost predicate Delivering(y: System) {
    Tracked(y) && InOrder(y) && Budgeted(y)
  }

  // ------------------------------------------------------------------- the walk

  lemma {:induction false} WalkSmall(retries: map<nat, nat>, rows: seq<nat>, fates: seq<Fate>)
    requires |fates| == |rows|
    requires Small(retries)
    ensures Small(Walk(retries, rows, fates).retries)
    decreases |rows|
  {
    if rows != [] {
      if fates[0] == Done || Bump(retries, rows[0]) >= MAILBOX_MLS_RETRIES {
        WalkSmall(retries - {rows[0]}, rows[1..], fates[1..]);
      } else {
        assert Walk(retries, rows, fates).retries == retries[rows[0] := Bump(retries, rows[0])];
      }
    }
  }

  function Once(b: bool): nat {
    if b then 1 else 0
  }

  /** A row the walk did not attempt keeps its count. */
  lemma {:induction false} WalkSpares(retries: map<nat, nat>, rows: seq<nat>, fates: seq<Fate>, s: nat)
    requires |fates| == |rows|
    ensures var w := Walk(retries, rows, fates);
            s !in rows[..w.attempted] ==> Failures(w.retries, s) == Failures(retries, s)
    decreases |rows|
  {
    if rows != [] {
      var w := Walk(retries, rows, fates);
      assert rows[0] in rows[..w.attempted] by { assert rows[..w.attempted][0] == rows[0]; }
      if fates[0] == Done || Bump(retries, rows[0]) >= MAILBOX_MLS_RETRIES {
        WalkSpares(retries - {rows[0]}, rows[1..], fates[1..], s);
        assert rows[..w.attempted] == [rows[0]] + rows[1..][..w.attempted - 1];
      }
    }
  }

  /** A row attempted but not finished is the one the walk stopped at, and its count went up. */
  lemma {:induction false} WalkStops(retries: map<nat, nat>, rows: seq<nat>, fates: seq<Fate>)
    requires |fates| == |rows| && Increasing(rows)
    ensures var w := Walk(retries, rows, fates);
            w.attempted == w.finished + 1 ==>
              Failures(w.retries, rows[w.finished]) == Bump(retries, rows[w.finished])
    decreases |rows|
  {
    if rows != [] && (fates[0] == Done || Bump(retries, rows[0]) >= MAILBOX_MLS_RETRIES) {
      WalkStops(retries - {rows[0]}, rows[1..], fates[1..]);
    }
  }

  lemma IncreasingPrefix(rows: seq<nat>, k: nat)
    requires Increasing(rows) && k <= |rows|
    ensures Increasing(rows[..k]) && (k > 0 ==> forall s :: s in rows[..k] ==> s <= rows[k - 1])
  {
  }

  lemma {:induction false} IncreasingCounts(rows: seq<nat>, s: nat)
    requires Increasing(rows)
    ensures multiset(rows)[s] == Once(s in rows)
  {
    if rows != [] {
      var last := |rows| - 1;
      IncreasingCounts(rows[..last], s);
      assert rows == rows[..last] + [rows[last]];
      assert s == rows[last] ==> s !in rows[..last];
    }
  }

  /** A batch that finishes nothing has failed on its first row, and its count has gone up. */
  lemma StuckOnFirst(retries: map<nat, nat>, rows: seq<nat>, fates: seq<Fate>)
    requires |fates| == |rows| && rows != [] && Walk(retries, rows, fates).finished == 0
    requires Small(retries)
    ensures Walk(retries, rows, fates).retries == retries[rows[0] := Failures(retries, rows[0]) + 1]
  {
  }

  // ------------------------------------------------------------------ each event

  lemma ServerTracks(y: System, op: Op, y': System)
    requires Delivering(y) && Next(y, AtServer(op), y')
    ensures Delivering(y')
  {
    StepValid(y.home, op);
    StepEvolves(y.home, op);
    hide Valid, Step, Admissible;
    assert Evolves(y.home.mailboxes[y.owner], y'.home.mailboxes[y.owner], y.home.limits);
  }

  lemma AckTracks(y: System, upTo: U64, y': System)
    requires Delivering(y) && Next(y, AckArrives(upTo), y')
    ensures Delivering(y')
  {
    AckValid(y.home, y.owner, upTo);
    AckEvolves(y.home, y.owner, upTo);
    assert forall s :: s in Rows(y) && s > upTo ==> s in Rows(y');
    assert y'.home.mailboxes[y.owner].nextSeq == y.home.mailboxes[y.owner].nextSeq;
    hide Valid, Ack;
  }

  /** Collection leaves only unexpired rows, so whatever it leaves after the cursor can be fetched. */
  lemma GcLeavesFetchable(h: Home, owner: Key)
    requires Valid(h) && owner in h.mailboxes
    ensures var h1 := Gc(h, owner);
            && Valid(h1) && owner in h1.mailboxes && h1.now == h.now
            && h1.mailboxes[owner].nextSeq == h.mailboxes[owner].nextSeq
            && h1.mailboxes[owner].rows.Keys <= h.mailboxes[owner].rows.Keys
            && (forall s :: s in h1.mailboxes[owner].rows ==>
                  h1.mailboxes[owner].rows[s].seqNo == s && h1.mailboxes[owner].rows[s].expiresAt > h.now)
  {
    GcValid(h, owner);
    GcResult(h, owner) by { assert MailboxOk(h.mailboxes[owner]); }
    var m := h.mailboxes[owner];
    assert forall s :: s in Retained(m.rows, h.now, h.limits) ==> m.rows[s].expiresAt > h.now;
    assert MailboxOk(m);
    assert Gc(h, owner).now == h.now;
    hide Gc, Retained, Bytes;
  }

  /** Every number after `c` and before the last of `rows` that is not in `rows` is in `gone`. */
  ghost predicate OnlyMissing(rows: seq<nat>, c: nat, gone: set<nat>) {
    rows != [] ==> forall s :: s !in rows && c < s < rows[|rows| - 1] ==> s in gone
  }

  lemma Uncollected(kept: map<nat, StoredEnvelope>, c: nat, now: nat, batch: seq<StoredEnvelope>, s: nat)
    requires IsBatch(kept, c, now, FETCH_LIMIT, batch) && batch != []
    requires s in kept && kept[s].seqNo == s && Fetchable(kept[s], c, now) && s < batch[|batch| - 1].seqNo
    ensures s in Seqs(batch)
  {
    assert kept[s] in batch;
    var j :| 0 <= j < |batch| && batch[j] == kept[s];
    assert Seqs(batch)[j] == s;
  }

  /** The fetched batch: increasing, after the cursor, and nothing waiting before its last row is left out. */
  lemma BatchCovers(y: System, batch: seq<StoredEnvelope>)
    requires Tracked(y)
    requires var h := Gc(y.home, y.owner);
             y.owner in h.mailboxes && IsBatch(h.mailboxes[y.owner].rows, y.client.cursor, h.now, FETCH_LIMIT, batch)
    ensures var h := Gc(y.home, y.owner); var rows := Seqs(batch);
            && Increasing(rows)
            && (forall i :: 0 <= i < |rows| ==> y.client.cursor < rows[i] < NextSeq(y) && rows[i] in Rows(y))
            && (rows != [] ==>
                  forall s :: s in h.mailboxes[y.owner].rows && y.client.cursor < s < rows[|rows| - 1] ==> s in rows)
  {
    GcLeavesFetchable(y.home, y.owner);
    var h := Gc(y.home, y.owner);
    var rows := Seqs(batch);
    var kept := h.mailboxes[y.owner].rows;
    hide Gc;
    assert MailboxOk(y.home.mailboxes[y.owner]);
    hide Valid, Bytes;
    forall s | rows != [] && s in kept && y.client.cursor < s < rows[|rows| - 1]
      ensures s in rows
    {
      Uncollected(kept, y.client.cursor, h.now, batch, s);
    }
  }

  /** The bookkeeping of one batch on plain numbers: finishing the first `k` rows keeps the record in order. */
  lemma FinishInOrder(finished: seq<nat>, gone: set<nat>, c: nat, rows: seq<nat>, k: nat)
    requires 0 < k <= |rows| && Increasing(rows) && forall i :: 0 <= i < |rows| ==> c < rows[i]
    requires Increasing(finished) && forall s :: s in finished ==> 1 <= s <= c
    requires forall s :: 1 <= s <= c ==> s in finished || s in gone
    requires OnlyMissing(rows, c, gone)
    ensures Increasing(finished + rows[..k])
    ensures forall s :: s in finished + rows[..k] ==> 1 <= s <= rows[k - 1]
    ensures forall s :: 1 <= s <= rows[k - 1] ==> s in finished + rows[..k] || s in gone
  {
    var f := finished + rows[..k];
    forall i, j | 0 <= i < j < |f| ensures f[i] < f[j] {
      if i < |finished| { assert finished[i] in finished; }
    }
    forall s | c < s <= rows[k - 1] ensures s in f || s in gone { Covered(rows, c, k, gone, s); }
  }

  lemma Covered(rows: seq<nat>, c: nat, k: nat, gone: set<nat>, s: nat)
    requires 0 < k <= |rows| && Increasing(rows) && OnlyMissing(rows, c, gone)
    requires c < s <= rows[k - 1]
    ensures s in rows[..k] || s in gone
  {
    if s in rows {
      var j :| 0 <= j < |rows| && rows[j] == s;
      assert !(k - 1 < j);
      assert rows[..k][j] == s;
    } else {
      assert rows[k - 1] in rows;
      assert rows[k - 1] <= rows[|rows| - 1];
    }
  }

  /** What a fetch leaves behind the cursor that it did not hand out is on record as gone. */
  lemma FetchGaps(y: System, batch: seq<StoredEnvelope>, fates: seq<Fate>, y': System)
    requires Tracked(y) && Next(y, Fetch(batch, fates), y')
    ensures Increasing(Seqs(batch)) && OnlyMissing(Seqs(batch), y.client.cursor, y'.dropped)
    ensures forall i :: 0 <= i < |batch| ==> y.client.cursor < Seqs(batch)[i] < NextSeq(y)
    ensures forall s :: y.client.cursor < s < NextSeq(y) ==> s in Rows(y') || s in y'.dropped
    ensures NextSeq(y') == NextSeq(y) && Valid(y'.home) && y'.owner == y.owner && y.owner in y'.home.mailboxes
  {
    GcLeavesFetchable(y.home, y.owner);
    BatchCovers(y, batch);
    hide Gc, Valid, IsBatch, Walk, Worked;
  }

  /** What a fetch does to the client and the record. */
  lemma FetchEffect(y: System, batch: seq<StoredEnvelope>, fates: seq<Fate>, y': System)
    requires Tracked(y) && Next(y, Fetch(batch, fates), y')
    ensures |fates| == |batch|
    ensures var rows := Seqs(batch); var w := Walk(y.client.retries, rows, fates);
            && y'.client == Worked(y.client, rows, fates)
            && y'.finished == y.finished + rows[..w.finished]
            && y'.tries == y.tries + rows[..w.attempted]
            && y.dropped <= y'.dropped
  {
    hide Gc, IsBatch, Vanished, Walk, Worked;
  }

  lemma FetchTracks(y: System, batch: seq<StoredEnvelope>, fates: seq<Fate>, y': System)
    requires Delivering(y) && Next(y, Fetch(batch, fates), y')
    ensures Tracked(y') && InOrder(y')
  {
    hide Next, Valid, OnlyMissing, Budgeted, Walk, Increasing;
    FetchEffect(y, batch, fates, y');
    FetchGaps(y, batch, fates, y');
    var rows := Seqs(batch);
    var k := Walk(y.client.retries, rows, fates).finished;
    if k == 0 {
      assert rows[..0] == [] && y'.finished == y.finished;
    } else {
      FinishInOrder(y.finished, y'.dropped, y.client.cursor, rows, k);
    }
  }

  lemma FetchBudget(y: System, batch: seq<StoredEnvelope>, fates: seq<Fate>, y': System)
    requires Delivering(y) && Next(y, Fetch(batch, fates), y')
    ensures Budgeted(y')
  {
    hide Next, Tracked, InOrder, OnlyMissing, Increasing;
    FetchEffect(y, batch, fates, y');
    FetchGaps(y, batch, fates, y');
    var rows := Seqs(batch);
    WalkSmall(y.client.retries, rows, fates);
    hide Walk;
    forall s: nat
      ensures multiset(y'.tries)[s] <= MAILBOX_MLS_RETRIES
      ensures s > y'.client.cursor ==> multiset(y'.tries)[s] == Failures(y'.client.retries, s)
    {
      TriesOf(y, rows, fates, s);
    }
  }

  /** One row's account over one batch. */
  lemma TriesOf(y: System, rows: seq<nat>, fates: seq<Fate>, s: nat)
    requires Budgeted(y) && Increasing(rows) && |fates| == |rows|
    requires forall i :: 0 <= i < |rows| ==> y.client.cursor < rows[i]
    ensures var w := Walk(y.client.retries, rows, fates); var tries := y.tries + rows[..w.attempted];
            && multiset(tries)[s] <= MAILBOX_MLS_RETRIES
            && (s > Worked(y.client, rows, fates).cursor ==> multiset(tries)[s] == Failures(w.retries, s))
  {
    WalkSpares(y.client.retries, rows, fates, s);
    WalkStops(y.client.retries, rows, fates);
    var w := Walk(y.client.retries, rows, fates);
    hide Walk;
    IncreasingPrefix(rows, w.attempted);
    IncreasingPrefix(rows, w.finished);
    StoppedAt(rows, w.finished, w.attempted, s);
    hide Increasing;
    Account(y.tries, rows[..w.attempted], s);
  }

  lemma StoppedAt(rows: seq<nat>, finished: nat, attempted: nat, s: nat)
    requires finished <= attempted <= |rows| && attempted <= finished + 1
    ensures s in rows[..attempted] ==> s in rows
    ensures s in rows[..attempted] && s !in rows[..finished] ==> attempted == finished + 1 && s == rows[finished]
  {
  }

  lemma Account(tries: seq<nat>, more: seq<nat>, s: nat)
    requires Increasing(more)
    ensures multiset(tries + more)[s] == multiset(tries)[s] + Once(s in more)
  {
    IncreasingCounts(more, s);
    assert multiset(tries + more) == multiset(tries) + multiset(more);
  }

  lemma EventDelivers(y: System, e: Event, y': System)
    requires Delivering(y) && Next(y, e, y')
    ensures Delivering(y') && y'.owner == y.owner
    ensures y.client.cursor <= y'.client.cursor && y.dropped <= y'.dropped && y.finished <= y'.finished
  {
    match e
    case AtServer(op) => ServerTracks(y, op, y');
    case AckArrives(upTo) => AckTracks(y, upTo, y');
    case Fetch(batch, fates) =>
      FetchTracks(y, batch, fates, y');
      FetchBudget(y, batch, fates, y');
      BatchCovers(y, batch);
  }

  // ------------------------------------------------------------------- whole runs

  ghost predicate IsRun(ys: seq<System>, es: seq<Event>) {
    && |ys| == |es| + 1
    && forall i :: 0 <= i < |es| ==>
         ys[i].owner in ys[i].home.mailboxes && Next(ys[i], es[i], ys[i + 1])
  }

  /** A mailbox nobody has fetched from yet. */
  ghost predicate Fresh(y: System) {
    && Valid(y.home) && y.owner in y.home.mailboxes && y.home.mailboxes[y.owner].nextSeq == 1
    && y == System(y.home, y.owner, Client(0, map[]), [], [], {})
  }

  lemma {:induction false} RunDelivers(ys: seq<System>, es: seq<Event>)
    requires IsRun(ys, es) && Delivering(ys[0])
    ensures forall i :: 0 <= i < |ys| ==> Delivering(ys[i]) && ys[i].dropped <= ys[|es|].dropped
    ensures ys[0].client.cursor <= ys[|es|].client.cursor
  {
    hide Delivering, Next;
    if |es| > 0 {
      var n := |es| - 1;
      assert forall i :: 0 <= i < n + 1 ==> ys[..n + 1][i] == ys[i];
      RunDelivers(ys[..n + 1], es[..n]);
      EventDelivers(ys[n], es[n], ys[n + 1]);
    }
  }

  function UpTo(n: nat): (r: seq<nat>)
    ensures |r| == n && forall i :: 0 <= i < n ==> r[i] == i + 1
  {
    seq(n, i => i + 1)
  }

  /** An increasing list of exactly the numbers 1..n is 1..n. */
  lemma {:induction false} AllInOrder(s: seq<nat>, n: nat)
    requires Increasing(s) && forall k :: k in s <==> 1 <= k <= n
    ensures s == UpTo(n)
    decreases n
  {
    assert |s| > 0 ==> s[0] in s;
    if n > 0 {
      var last := |s| - 1;
      assert n in s;
      var i :| 0 <= i < |s| && s[i] == n;
      assert i == last by { assert s[last] in s; }
      forall k ensures k in s[..last] <==> 1 <= k <= n - 1 {
        if 1 <= k <= n - 1 {
          assert k in s;
          var j :| 0 <= j < |s| && s[j] == k;
          assert s[..last][j] == k;
        }
        if k in s[..last] {
          var j :| 0 <= j < last && s[..last][j] == k;
          assert s[j] in s && s[j] < s[last];
        }
      }
      AllInOrder(s[..last], n - 1);
      assert s == s[..last] + [n];
    }
  }

  /**
   However server work, fetches, acknowledgements and losses of either interleave: every row up to the cursor was
   finished exactly once and in order, or is on record as dropped; no row is attempted more than eight times; and
   if nothing was dropped, the finished rows are exactly 1..cursor.
   */
  lemma FinishedExactlyOnce(ys: seq<System>, es: seq<Event>)
    requires IsRun(ys, es) && Fresh(ys[0])
    ensures var y := ys[|es|];
            && Increasing(y.finished)
            && (forall s :: s in y.finished ==> 1 <= s <= y.client.cursor)
            && (forall s :: 1 <= s <= y.client.cursor ==> s in y.finished || s in y.dropped)
            && (forall s :: multiset(y.tries)[s] <= MAILBOX_MLS_RETRIES)
            && (y.dropped == {} ==> y.finished == UpTo(y.client.cursor))
  {
    hide Next, Valid;
    assert Delivering(ys[0]);
    RunDelivers(ys, es);
    var y := ys[|es|];
    if y.dropped == {} { AllInOrder(y.finished, y.client.cursor); }
  }

  // ------------------------------------------------------- what is finished, and why rows go

  /** Rows are finished from the front as long as each is done or has failed for the eighth time. */
  lemma {:induction false} WalkFinishes(retries: map<nat, nat>, rows: seq<nat>, fates: seq<Fate>)
    requires |fates| == |rows| && Increasing(rows)
    ensures var w := Walk(retries, rows, fates);
            && (forall k :: 0 <= k < w.finished ==> fates[k] == Done || Failures(retries, rows[k]) >= 7)
            && (w.finished < |rows| ==>
                  w.attempted == w.finished + 1 && fates[w.finished] == Retry && Failures(retries, rows[w.finished]) < 7)
    decreases |rows|
  {
    if rows != [] && (fates[0] == Done || Bump(retries, rows[0]) >= MAILBOX_MLS_RETRIES) {
      var rest := Walk(retries - {rows[0]}, rows[1..], fates[1..]);
      WalkFinishes(retries - {rows[0]}, rows[1..], fates[1..]);
      assert Walk(retries, rows, fates).finished == rest.finished + 1;
      hide Walk;
      assert forall k :: 1 <= k < |rows| ==> Failures(retries - {rows[0]}, rows[k]) == Failures(retries, rows[k]);
      assert forall k :: 1 <= k < |rows| ==> rows[1..][k - 1] == rows[k] && fates[1..][k - 1] == fates[k];
    }
  }

  /**
   What one fetch achieves: the rows finished are exactly those up to the first one that asks for a retry and has been
   tried fewer than seven times before; that one is tried and left; the cursor moves to the last finished row.
   */
  lemma FetchFinishes(y: System, batch: seq<StoredEnvelope>, fates: seq<Fate>, y': System, n: nat)
    requires Delivering(y) && Next(y, Fetch(batch, fates), y') && |y'.finished| == |y.finished| + n
    ensures n <= |batch| == |fates|
    ensures FinishedFirst(y.tries, Seqs(batch), fates, n)
    ensures y'.tries == y.tries + Seqs(batch)[..Min(n + 1, |batch|)]
    ensures y'.client.cursor == if n == 0 then y.client.cursor else batch[n - 1].seqNo
  {
    hide Next, FinishedFirst, Increasing;
    FetchEffect(y, batch, fates, y');
    FetchGaps(y, batch, fates, y');
    var rows := Seqs(batch);
    WalkFinishes(y.client.retries, rows, fates);
    var w := Walk(y.client.retries, rows, fates);
    hide Walk, Tracked, InOrder;
    assert w.finished == n;
    CountedFirst(y, rows, fates, n);
    hide Budgeted;
  }

  /** The first `n` rows are done or have failed seven times before; the next asks for a retry and has not. */
  ghost predicate FinishedFirst(tries: seq<nat>, rows: seq<nat>, fates: seq<Fate>, n: nat)
    requires n <= |rows| == |fates|
  {
    && (forall k :: 0 <= k < n ==> fates[k] == Done || multiset(tries)[rows[k]] == 7)
    && (n < |rows| ==> fates[n] == Retry && multiset(tries)[rows[n]] < 7)
  }

  lemma CountedFirst(y: System, rows: seq<nat>, fates: seq<Fate>, n: nat)
    requires n <= |rows| == |fates| && Budgeted(y) && forall k :: 0 <= k < |rows| ==> rows[k] > y.client.cursor
    requires forall k :: 0 <= k < n ==> fates[k] == Done || Failures(y.client.retries, rows[k]) >= 7
    requires n < |rows| ==> fates[n] == Retry && Failures(y.client.retries, rows[n]) < 7
    ensures FinishedFirst(y.tries, rows, fates, n)
  {
    forall k | 0 <= k < |rows| ensures multiset(y.tries)[rows[k]] == Failures(y.client.retries, rows[k]) <= 7 {
    }
  }

  /** What the server did in an event, as far as it can cost rows. */
  function ServerOp(y: System, e: Event): Option<Op> {
    match e
    case AtServer(op) => Some(op)
    case Fetch(_, _) => Some(OpFetch(y.owner))
    case AckArrives(_) => None
  }

  lemma DropHasCause(y: System, e: Event, y': System, s: nat)
    requires Delivering(y) && Next(y, e, y') && s in y'.dropped && s !in y.dropped
    ensures var op := ServerOp(y, e);
            op.Some? && s in Lifetimes.Rows(y.home, op.value, y.owner)
            && !Lifetimes.Keeps(y.home, op.value, y.owner, s)
  {
    hide Valid;
    if !e.AckArrives? {
      var op := ServerOp(y, e).value;
      VanishedByStep(y, e, y', s);
      hide Next;
      Lifetimes.RowMoves(y.home, op, y.owner, s);
      hide Step;
      NumberedRow(y.home, op, y.owner, s);
      hide Lifetimes.Keeps, Lifetimes.Rows;
    }
  }

  lemma VanishedByStep(y: System, e: Event, y': System, s: nat)
    requires Tracked(y) && Next(y, e, y') && !e.AckArrives? && s in y'.dropped && s !in y.dropped
    ensures var op := ServerOp(y, e).value;
            && y.owner in Step(y.home, op).mailboxes
            && s in Vanished(y.home.mailboxes[y.owner], Step(y.home, op).mailboxes[y.owner])
            && !(op.OpAck? && op.owner == y.owner)
  {
    hide Vanished, Walk, Worked, IsBatch, Gc, Valid;
    if e.Fetch? { FetchIsGc(y.home, y.owner); hide Step; } else { hide Step; }
  }

  lemma FetchIsGc(h: Home, owner: Key)
    ensures Step(h, OpFetch(owner)) == Gc(h, owner)
  {
    hide Gc;
  }

  lemma NumberedRow(h: Home, op: Op, o: Key, s: nat)
    requires Valid(h) && o in h.mailboxes && o in Step(h, op).mailboxes
    requires s in Vanished(h.mailboxes[o], Step(h, op).mailboxes[o])
    ensures s in Lifetimes.Rows(h, op, o)
  {
    Lifetimes.StepMoves(h, op, o);
    Lifetimes.NextNumber(h, op, h.mailboxes[o], Step(h, op).mailboxes[o], o);
    hide Valid, Step, Lifetimes.Takes, Lifetimes.MailMoves;
  }

  /**
   Rows are dropped for a reason only. In any run, every row on record as dropped was lost by some operation of the
   server: one that closed the mailbox, or a collection at which the row had lapsed, was too old, or did not fit
   together with the newer rows.
   */
  lemma {:induction false} DropsHaveCause(ys: seq<System>, es: seq<Event>, s: nat) returns (k: nat)
    requires IsRun(ys, es) && Fresh(ys[0]) && s in ys[|es|].dropped
    ensures k < |es|
    ensures var op := ServerOp(ys[k], es[k]);
            op.Some? && s in Lifetimes.Rows(ys[k].home, op.value, ys[k].owner)
            && !Lifetimes.Keeps(ys[k].home, op.value, ys[k].owner, s)
  {
    var n := |es| - 1;
    assert Delivering(ys[0]);
    hide Next, Valid, Lifetimes.Keeps, Lifetimes.Rows;
    RunDelivers(ys, es);
    hide Delivering;
    if s in ys[n].dropped {
      assert ys[..n + 1][n] == ys[n];
      k := DropsHaveCause(ys[..n + 1], es[..n], s);
    } else {
      DropHasCause(ys[n], es[n], ys[n + 1], s);
      k := n;
    }
  }

  ghost predicate LostBetween(dropped: set<nat>, a: nat, b: nat) {
    exists s :: s in dropped && a < s < b
  }

  /**
   In any run, the loss notice on a fetched batch is right: it is shown exactly when a row between the cursor and
   the first fetched row was dropped.
   */
  lemma LossNoticeIsExact(ys: seq<System>, es: seq<Event>, i: nat)
    requires IsRun(ys, es) && Fresh(ys[0]) && i < |es| && es[i].Fetch? && es[i].batch != []
    requires ys[i].client.cursor < U64_MAX
    ensures MessagesLost(ys[i].client.cursor, es[i].batch[0].seqNo) <==>
            LostBetween(ys[i + 1].dropped, ys[i].client.cursor, es[i].batch[0].seqNo)
  {
    hide Next, Valid;
    assert Delivering(ys[0]);
    RunDelivers(ys, es);
    NoticeIsExact(ys[i], es[i].batch, es[i].fates, ys[i + 1]);
  }

  lemma NoticeIsExact(y: System, batch: seq<StoredEnvelope>, fates: seq<Fate>, y': System)
    requires Tracked(y) && Next(y, Fetch(batch, fates), y') && batch != [] && y.client.cursor < U64_MAX
    ensures MessagesLost(y.client.cursor, batch[0].seqNo) <==>
            LostBetween(y'.dropped, y.client.cursor, batch[0].seqNo)
  {
    FetchGaps(y, batch, fates, y');
    hide Next, Tracked;
    GapIsLoss(Seqs(batch), y.client.cursor, y'.dropped);
  }

  lemma GapIsLoss(rows: seq<nat>, c: nat, dropped: set<nat>)
    requires rows != [] && Increasing(rows) && OnlyMissing(rows, c, dropped) && c < U64_MAX
    ensures MessagesLost(c, rows[0]) <==> LostBetween(dropped, c, rows[0])
  {
    assert MessagesLost(c, rows[0]) ==> c + 1 !in rows;
  }

  /** Fetches in the run that found rows waiting. */
  ghost function Waiting(es: seq<Event>): nat {
    if es == [] then 0
    else Waiting(es[..|es| - 1]) + if es[|es| - 1].Fetch? && es[|es| - 1].batch != [] then 1 else 0
  }

  lemma FirstIsNext(rows: seq<nat>, c: nat)
    requires rows != [] && Increasing(rows) && c < rows[0] && OnlyMissing(rows, c, {})
    ensures rows[0] == c + 1
  {
    assert c + 1 < rows[0] ==> c + 1 !in rows;
  }

  lemma FetchStuck(y: System, batch: seq<StoredEnvelope>, fates: seq<Fate>, y': System)
    requires Delivering(y) && Next(y, Fetch(batch, fates), y') && batch != []
    requires y'.dropped == {} && y'.client.cursor == y.client.cursor
    ensures Failures(y'.client.retries, y.client.cursor + 1) == Failures(y.client.retries, y.client.cursor + 1) + 1
  {
    hide Next, Increasing, OnlyMissing, Walk, Worked, Tracked, InOrder;
    FetchEffect(y, batch, fates, y');
    FetchGaps(y, batch, fates, y');
    StuckCounts(y.client, Seqs(batch), fates);
  }

  lemma StuckCounts(c: Client, rows: seq<nat>, fates: seq<Fate>)
    requires |fates| == |rows| && rows != [] && Small(c.retries)
    requires Increasing(rows) && OnlyMissing(rows, c.cursor, {}) && forall i :: 0 <= i < |rows| ==> c.cursor < rows[i]
    requires Worked(c, rows, fates).cursor == c.cursor
    ensures Failures(Worked(c, rows, fates).retries, c.cursor + 1) == Failures(c.retries, c.cursor + 1) + 1
  {
    FirstIsNext(rows, c.cursor);
    hide Increasing, OnlyMissing;
    StuckOnFirst(c.retries, rows, fates);
  }

  lemma EmptyFetch(y: System, fates: seq<Fate>, y': System)
    requires Delivering(y) && Next(y, Fetch([], fates), y')
    ensures y'.client == y.client
  {
    FetchEffect(y, [], fates, y');
    hide Next;
  }

  /** Nothing dropped: a fetch that found rows moves the cursor or counts a failure against the next row. */
  lemma FetchCounts(y: System, e: Event, y': System)
    requires Delivering(y) && Next(y, e, y') && y'.dropped == {} && y'.client.cursor == y.client.cursor
    ensures Failures(y'.client.retries, y.client.cursor + 1)
            == Failures(y.client.retries, y.client.cursor + 1) + if e.Fetch? && e.batch != [] then 1 else 0
  {
    hide Delivering;
    match e
    case Fetch(batch, fates) =>
      hide Next;
      if batch == [] { EmptyFetch(y, fates, y'); } else { FetchStuck(y, batch, fates, y'); }
    case AckArrives(_) => hide Ack;
    case AtServer(op) => hide Step, Admissible, Vanished;
  }

  lemma {:induction false} StandingStillCounts(ys: seq<System>, es: seq<Event>)
    requires IsRun(ys, es) && Delivering(ys[0])
    requires ys[|es|].dropped == {} && ys[|es|].client.cursor == ys[0].client.cursor
    ensures Failures(ys[|es|].client.retries, ys[0].client.cursor + 1)
            == Failures(ys[0].client.retries, ys[0].client.cursor + 1) + Waiting(es)
  {
    hide Next, Delivering;
    if |es| > 0 {
      var n := |es| - 1;
      assert forall i :: 0 <= i < n + 1 ==> ys[..n + 1][i] == ys[i];
      RunDelivers(ys[..n + 1], es[..n]);
      EventDelivers(ys[n], es[n], ys[n + 1]);
      StandingStillCounts(ys[..n + 1], es[..n]);
      FetchCounts(ys[n], es[n], ys[n + 1]);
    }
  }

  /** With nothing dropped, eight fetches that each found rows waiting move the cursor, whatever happens between them. */
  lemma EightFetchesAdvance(ys: seq<System>, es: seq<Event>)
    requires IsRun(ys, es) && Delivering(ys[0]) && ys[|es|].dropped == {}
    requires Waiting(es) >= MAILBOX_MLS_RETRIES
    ensures ys[|es|].client.cursor > ys[0].client.cursor
  {
    hide Next, Valid;
    RunDelivers(ys, es);
    assert Budgeted(ys[|es|]);
    if ys[|es|].client.cursor == ys[0].client.cursor { StandingStillCounts(ys, es); }
  }
}
