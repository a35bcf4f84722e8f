/**
 The home server's durable memory as a value, and every mutator as a function from state to state.
 Results of cryptographic checks, decryption and random minting arrive as parameters.
 */
module HomeState {
  import opened Basics

  const FETCH_LIMIT_MAX: nat := 256
  const SHARE_TTL_DEFAULT: nat := 1800
  const HPKE_ENC_WINDOW: nat := 1024
  const CONTACT_GRACE_SECS: nat := 72 * 3600
  const CONTACT_CAP_IDLE_SECS: nat := 30 * 24 * 3600
  const SHARE_EXPIRED_BUFFER_SECS: nat := 24 * 3600
  const SHARE_RESERVED_BUFFER_SECS: nat := 7 * 24 * 3600
  const RATE_PER_MIN: nat := 30
  const PEER_RATE_PER_SEC: nat := 100
  const BACKOFF_CAP_SECS: nat := 300

  // ---------------------------------------------------------------- envelopes

  datatype Inner = Inner(capability: Key, ttl: nat, idem: Key, attachment: bool, innerLen: nat, body: Blob)

  function TtlSecs(bucket: nat): Option<nat> {
    match bucket
    case 1 => Some(60)
    case 2 => Some(3600)
    case 3 => Some(86400)
    case _ => None
  }

  function OuterLen(inner: Inner): nat {
    if !inner.attachment then 20480
    else match inner.innerLen
         case 262144 => 266240
         case 1048576 => 1052672
         case 4194304 => 4202496
         case 16777216 => 16781312
         case _ => 20480
  }

  /** Length of the padded encoding: a 66-byte header and the message, or no bucket. */
  function PaddedLen(inner: Inner): Option<nat> {
    if 66 + inner.innerLen > OuterLen(inner) then None else Some(OuterLen(inner))
  }

  function EnvelopeExpiry(now: nat, ttl: nat, maxAge: nat): nat {
    var cap := SatAdd(now, maxAge);
    match TtlSecs(ttl)
    case Some(s) => Min(SatAdd(now, s), cap)
    case None => cap
  }

  // ---------------------------------------------------------------- mailboxes

  datatype Limits = Limits(maxBytes: nat, maxAge: nat)

  datatype StoredEnvelope = StoredEnvelope(seqNo: nat, receivedAt: nat, expiresAt: nat, inner: Inner)

  datatype Mailbox = Mailbox(
    ownerPk: Key, nextSeq: nat, rows: map<nat, StoredEnvelope>, idem: map<Key, nat>, bytes: nat, disabled: bool)

  function RowSize(row: StoredEnvelope): nat {
    match PaddedLen(row.inner)
    case Some(n) => n
    case None => 0
  }

  /** Sum of padded row sizes. */
  ghost function Bytes(rows: map<nat, StoredEnvelope>): nat
    decreases |rows|
  {
    if rows == map[] then 0
    else
      var s :| s in rows;
      RowSize(rows[s]) + Bytes(rows - {s})
  }

  /** What every mailbox satisfies: exact byte count, own sequence numbers, one live row per idempotency token. */
  ghost predicate MailboxOk(m: Mailbox) {
    && m.nextSeq >= 1
    && m.bytes == Bytes(m.rows)
    && (forall s :: s in m.rows ==>
          && 1 <= s < m.nextSeq
          && m.rows[s].seqNo == s
          && PaddedLen(m.rows[s].inner).Some?
          && m.rows[s].inner.idem in m.idem
          && m.idem[m.rows[s].inner.idem] == s)
    && (forall t :: t in m.idem ==>
          m.idem[t] < m.nextSeq && (m.idem[t] in m.rows ==> m.rows[m.idem[t]].inner.idem == t))
    && (m.disabled ==> m.rows == map[])
  }

  function NewMailbox(pk: Key): Mailbox {
    Mailbox(pk, 1, map[], map[], 0, false)
  }

  function Restrict(rows: map<nat, StoredEnvelope>, keep: set<nat>): map<nat, StoredEnvelope> {
    map s | s in rows && s in keep :: rows[s]
  }

  /** Forget every row outside `keep`, together with the idempotency entries that point at it. */
  ghost function Trim(m: Mailbox, keep: set<nat>): Mailbox {
    var rows := Restrict(m.rows, keep);
    m.(rows := rows,
       bytes := Bytes(rows),
       idem := map t | t in m.idem && (m.idem[t] in keep || m.idem[t] !in m.rows) :: m.idem[t])
  }

  predicate Expired(row: StoredEnvelope, now: nat, maxAge: nat) {
    row.expiresAt <= now || SatSub(now, row.receivedAt) > maxAge
  }

  function Live(rows: map<nat, StoredEnvelope>, now: nat, maxAge: nat): map<nat, StoredEnvelope> {
    map s | s in rows && !Expired(rows[s], now, maxAge) :: rows[s]
  }

  function From(rows: map<nat, StoredEnvelope>, first: nat): map<nat, StoredEnvelope> {
    map s | s in rows && first <= s :: rows[s]
  }

  /** The rows retention keeps: unexpired, and from here to the newest they fit in the byte limit. */
  ghost function Retained(rows: map<nat, StoredEnvelope>, now: nat, lim: Limits): set<nat> {
    set s | s in rows && s in Live(rows, now, lim.maxAge)
            && Bytes(From(Live(rows, now, lim.maxAge), s)) <= lim.maxBytes
  }

  function StoreRow(m: Mailbox, now: nat, lim: Limits, inner: Inner, size: nat): Mailbox {
    var row := StoredEnvelope(m.nextSeq, now, EnvelopeExpiry(now, inner.ttl, lim.maxAge), inner);
    m.(nextSeq := m.nextSeq + 1,
       rows := m.rows[m.nextSeq := row],
       idem := m.idem[inner.idem := m.nextSeq],
       bytes := m.bytes + size)
  }

  /** Acknowledgement drops rows but keeps their idempotency tokens. */
  ghost function AckRows(m: Mailbox, upTo: nat): Mailbox {
    var rows := map s | s in m.rows && s > upTo :: m.rows[s];
    m.(rows := rows, bytes := Bytes(rows))
  }

  // ------------------------------------------------------------- capabilities

  datatype TokenKind =
    | Share(mailbox: Key, expiresAt: nat, burned: bool, reserved: Option<Blob>)
    | Contact(mailbox: Key, graceUntil: Option<nat>, windowStart: nat, windowCount: nat)

  datatype TokenRow = TokenRow(token: Key, kind: TokenKind)

  ghost predicate DistinctTokens(ts: seq<TokenRow>) {
    forall i, j :: 0 <= i < j < |ts| ==> ts[i].token != ts[j].token
  }

  function Held(ts: seq<TokenRow>): set<Key> {
    set i | 0 <= i < |ts| :: ts[i].token
  }

  /** Position of the last row for a token, as memory lookups use it; -1 if there is none. */
  function LastIndex(ts: seq<TokenRow>, t: Key): (i: int)
    ensures -1 <= i < |ts|
    ensures i >= 0 ==> ts[i].token == t
    ensures forall j :: i < j < |ts| ==> ts[j].token != t
  {
    if |ts| == 0 then -1
    else if ts[|ts| - 1].token == t then |ts| - 1
    else LastIndex(ts[..|ts| - 1], t)
  }

  /** Position of the first row for a token, as persistence uses it; -1 if there is none. */
  function FirstIndex(ts: seq<TokenRow>, t: Key): (i: int)
    ensures -1 <= i < |ts|
    ensures i >= 0 ==> ts[i].token == t && forall j :: 0 <= j < i ==> ts[j].token != t
    ensures i < 0 ==> forall j :: 0 <= j < |ts| ==> ts[j].token != t
  {
    if |ts| == 0 then -1
    else if ts[0].token == t then 0
    else var r := FirstIndex(ts[1..], t);
         if r < 0 then -1
         else assert forall j :: 1 <= j < r + 1 ==> ts[j] == ts[1..][j - 1]; r + 1
  }

  function SetKind(ts: seq<TokenRow>, i: nat, kind: TokenKind): (r: seq<TokenRow>)
    requires i < |ts|
  {
    ts[i := TokenRow(ts[i].token, kind)]
  }

  /** `retain`: the rows whose token is not in `gone`, in order. */
  function Without(ts: seq<TokenRow>, gone: set<Key>): (r: seq<TokenRow>)
    ensures forall x :: x in r <==> x in ts && x.token !in gone
  {
    if ts == [] then []
    else (if ts[0].token in gone then [] else [ts[0]]) + Without(ts[1..], gone)
  }

  /** `retain`: the rows that do not belong to `owner`, in order. */
  function WithoutOwner(ts: seq<TokenRow>, owner: Key): (r: seq<TokenRow>)
    ensures forall x :: x in r <==> x in ts && x.kind.mailbox != owner
  {
    if ts == [] then []
    else (if ts[0].kind.mailbox == owner then [] else [ts[0]]) + WithoutOwner(ts[1..], owner)
  }

  predicate ShareDead(expiresAt: nat, reserved: Option<Blob>, now: nat) {
    now > SatAdd(expiresAt, if reserved.Some? then SHARE_RESERVED_BUFFER_SECS else SHARE_EXPIRED_BUFFER_SECS)
  }

  predicate ContactDead(windowStart: nat, now: nat) {
    SatSub(now, windowStart) > CONTACT_CAP_IDLE_SECS
  }

  /** Row `i` is its owner's newest contact capability: greatest window start, ties to the later row. */
  ghost predicate Newest(ts: seq<TokenRow>, i: nat)
    requires i < |ts|
  {
    && ts[i].kind.Contact?
    && forall j :: 0 <= j < |ts| && ts[j].kind.Contact? && ts[j].kind.mailbox == ts[i].kind.mailbox ==>
         ts[j].kind.windowStart < ts[i].kind.windowStart
         || (ts[j].kind.windowStart == ts[i].kind.windowStart && j <= i)
  }

  /** Row `i` may be reclaimed by a sweep at this time. */
  ghost predicate Reclaimable(h: Home, i: nat)
    requires i < |h.tokens|
  {
    var kind := h.tokens[i].kind;
    if kind.mailbox !in h.mailboxes || h.mailboxes[kind.mailbox].disabled then true
    else match kind
         case Share(_, expiresAt, _, reserved) => ShareDead(expiresAt, reserved, h.now)
         case Contact(_, grace, start, _) =>
           !Newest(h.tokens, i) && !(grace.Some? && h.now < grace.value) && ContactDead(start, h.now)
  }

  // ------------------------------------------------------ directory and peers

  datatype Binding = Binding(serverId: Key, seqNo: nat, body: Blob)

  datatype DirectoryRow = DirectoryRow(
    identityPk: Key, revocationPk: Key, binding: Binding, bindingSeq: nat, revocation: Option<Blob>)

  datatype Peer = Peer(
    bundle: Blob, refused: bool, lastRx: nat, nextTx: nat, helloDone: bool,
    windowSec: nat, windowOk: nat, seen: map<Key, nat>)

  // An outer envelope: how its ciphertext parses as a frame payload, its
  // encapsulated key, and what opening it here would give.
  datatype Outer = Outer(dest: Key, payload: Payload, enc: Option<Key>, plain: Option<Inner>)

  datatype OutboundRow = OutboundRow(dest: Key, outer: Outer, enqueuedAt: nat, nextAttempt: nat, backoff: nat)

  // What a frame payload parses to. A ciphertext carries its encapsulated key
  // (none if it is too short) and what opening it would give (none if that fails).
  datatype Payload =
    | Hello(sender: Key, receiver: Key)
    | OkSeq(seqNo: nat)
    | Fail
    | Ciphertext(enc: Option<Key>, plain: Option<Inner>)
    | Malformed

  datatype Frame = Frame(counter: nat, payload: Payload)

  // ------------------------------------------------------------------ journal

  datatype HomeDirty = HomeDirty(
    identities: set<Key>,
    mailboxNew: seq<(Key, nat)>,
    mailboxAcked: map<Key, U64>,
    mailboxDropped: set<(Key, nat)>,
    mailboxCleared: set<Key>,
    tokens: set<Key>,
    tokensDropped: set<Key>,
    tokensDroppedExact: set<Key>,
    prekeys: set<Key>,
    memberships: set<Key>,
    peers: set<Key>,
    outbound: bool,
    seenNew: seq<Key>,
    seenCleared: bool)

  const CLEAN := HomeDirty({}, [], map[], {}, {}, {}, {}, {}, {}, {}, {}, false, [], false)

  function MaxMark(a: Option<U64>, b: U64): U64 {
    match a
    case Some(x) => if x < b then b else x
    case None => b
  }

  /** Merge a drained journal back; acknowledgement marks merge to the larger one. */
  function Absorb(d: HomeDirty, o: HomeDirty): HomeDirty {
    HomeDirty(
      d.identities + o.identities,
      d.mailboxNew + o.mailboxNew,
      map k | k in d.mailboxAcked.Keys + o.mailboxAcked.Keys ::
        if k in o.mailboxAcked then MaxMark(Get(d.mailboxAcked, k), o.mailboxAcked[k]) else d.mailboxAcked[k],
      d.mailboxDropped + o.mailboxDropped,
      d.mailboxCleared + o.mailboxCleared,
      d.tokens + o.tokens,
      d.tokensDropped + o.tokensDropped,
      d.tokensDroppedExact + o.tokensDroppedExact,
      d.prekeys + o.prekeys,
      d.memberships + o.memberships,
      d.peers + o.peers,
      d.outbound || o.outbound,
      d.seenNew + o.seenNew,
      d.seenCleared || o.seenCleared)
  }

  // -------------------------------------------------------------------- state

  datatype Home = Home(
    serverId: Key,
    now: nat,
    limits: Limits,
    mailboxes: map<Key, Mailbox>,
    directory: map<Key, DirectoryRow>,
    memberships: map<Key, seq<Key>>,
    tokens: seq<TokenRow>,
    prekeys: map<Key, seq<Blob>>,
    seen: map<Key, nat>,
    peers: map<Key, Peer>,
    outbound: seq<OutboundRow>,
    dirty: HomeDirty)

  predicate Enabled(h: Home, owner: Key) {
    owner in h.mailboxes && !h.mailboxes[owner].disabled
  }

  type Reply<T> = Result<T, ServerError>

  // ------------------------------------------------------ identity lifecycle

  function Register(h: Home, id: Key, pk: Key): (Home, Reply<()>) {
    if id in h.mailboxes then (h, Err(AlreadyRegistered))
    else (h.(mailboxes := h.mailboxes[id := NewMailbox(pk)],
             dirty := h.dirty.(identities := h.dirty.identities + {id})), Ok(()))
  }

  datatype Card = Card(id: Key, identityPk: Key, revocationPk: Key, binding: Binding, shareToken: Key)

  function RegisterFromCard(h: Home, card: Card, verified: bool): (Home, Reply<()>) {
    if !verified then (h, Err(Wire))
    else if card.binding.serverId != h.serverId then (h, Err(Denied))
    else match Register(h, card.id, card.identityPk)
         case (h1, Err(e)) => (h1, Err(e))
         case (h1, Ok(_)) =>
           var row := DirectoryRow(card.identityPk, card.revocationPk, card.binding, card.binding.seqNo, None);
           RegisterShare(h1.(directory := h1.directory[card.id := row]), card.id, card.shareToken, None)
  }

  /** Wipe rows, capabilities and prekeys of a mailbox that moved away or was revoked. */
  ghost function Disable(h: Home, owner: Key): Home {
    h.(mailboxes := if owner in h.mailboxes
                    then h.mailboxes[owner := Trim(h.mailboxes[owner], {}).(disabled := true)]
                    else h.mailboxes,
       prekeys := h.prekeys - {owner},
       tokens := WithoutOwner(h.tokens, owner),
       dirty := h.dirty.(mailboxCleared := h.dirty.mailboxCleared + {owner},
                         tokensDropped := h.dirty.tokensDropped + {owner},
                         prekeys := h.dirty.prekeys + {owner},
                         identities := h.dirty.identities + {owner}))
  }

  ghost function ObserveBinding(h: Home, id: Key, binding: Binding, verified: bool): (Home, Reply<()>) {
    if id !in h.directory && id !in h.mailboxes then (h, Err(Denied))
    else if !verified then (h, Err(Denied))
    else if binding.seqNo <= (if id in h.directory then h.directory[id].bindingSeq else 0) then (h, Ok(()))
    else
      var row := if id in h.directory
                 then h.directory[id].(binding := binding, bindingSeq := binding.seqNo)
                 else DirectoryRow(h.mailboxes[id].ownerPk, 0, binding, binding.seqNo, None);
      var h1 := h.(directory := h.directory[id := row],
                   dirty := h.dirty.(identities := h.dirty.identities + {id}));
      (if binding.serverId != h.serverId then Disable(h1, id) else h1, Ok(()))
  }

  function NoteMembership(h: Home, id: Key, group: Key): Home {
    var list := if id in h.memberships then h.memberships[id] else [];
    if group in list then h
    else h.(memberships := h.memberships[id := list + [group]],
            dirty := h.dirty.(memberships := h.dirty.memberships + {id}))
  }

  ghost function IngestRevocation(h: Home, id: Key, stmt: Blob, verified: bool): (Home, Reply<seq<Key>>) {
    if id !in h.directory || !verified then (h, Err(Denied))
    else
      var h1 := h.(directory := h.directory[id := h.directory[id].(revocation := Some(stmt))],
                   dirty := h.dirty.(identities := h.dirty.identities + {id}));
      var h2 := Disable(h1, id);
      if id in h2.memberships then
        (h2.(memberships := h2.memberships - {id},
             dirty := h2.dirty.(memberships := h2.dirty.memberships + {id})), Ok(h2.memberships[id]))
      else (h2, Ok([]))
  }

  // ------------------------------------------------------------ capabilities

  predicate AllowedIntroTtl(ttl: nat) {
    ttl == 300 || ttl == 1800 || ttl == 3600
  }

  function PushToken(h: Home, token: Key, kind: TokenKind): Home {
    h.(tokens := h.tokens + [TokenRow(token, kind)],
       dirty := h.dirty.(tokens := h.dirty.tokens + {token}))
  }

  function RegisterShare(h: Home, owner: Key, token: Key, ttl: Option<nat>): (Home, Reply<()>) {
    var secs := if ttl.Some? then ttl.value else SHARE_TTL_DEFAULT;
    if !Enabled(h, owner) || !AllowedIntroTtl(secs) then (h, Err(Denied))
    else (PushToken(h, token, Share(owner, h.now + secs, false, None)), Ok(()))
  }

  /** Remove tokens from memory, journal their deletion, and cancel any pending upsert for them. */
  function DropTokens(h: Home, gone: set<Key>): Home {
    h.(tokens := Without(h.tokens, gone),
       dirty := h.dirty.(tokens := h.dirty.tokens - gone,
                         tokensDroppedExact := h.dirty.tokensDroppedExact + gone))
  }

  ghost function DeadFor(h: Home, owner: Key): set<Key> {
    set i | 0 <= i < |h.tokens| && h.tokens[i].kind.mailbox == owner && Reclaimable(h, i) :: h.tokens[i].token
  }

  ghost function DeadTokens(h: Home): set<Key> {
    set i | 0 <= i < |h.tokens| && Reclaimable(h, i) :: h.tokens[i].token
  }

  ghost function SweepFor(h: Home, owner: Key): Home {
    DropTokens(h, DeadFor(h, owner))
  }

  ghost function Sweep(h: Home): Home {
    DropTokens(h, DeadTokens(h))
  }

  ghost function MintContact(h: Home, owner: Key, token: Key): (Home, Reply<()>) {
    if !Enabled(h, owner) then (h, Err(Denied))
    else (PushToken(SweepFor(h, owner), token, Contact(owner, None, h.now, 0)), Ok(()))
  }

  /** Replace one token's fields and mark it for upsert. */
  function TouchToken(h: Home, i: nat, kind: TokenKind): Home
    requires i < |h.tokens|
  {
    h.(tokens := SetKind(h.tokens, i, kind),
       dirty := h.dirty.(tokens := h.dirty.tokens + {h.tokens[i].token}))
  }

  ghost function RotateContact(h: Home, owner: Key, oldToken: Key, confirm: bool, token: Key): (Home, Reply<()>) {
    match MintContact(h, owner, token)
    case (h1, Err(e)) => (h1, Err(e))
    case (h1, Ok(_)) =>
      var i := LastIndex(h1.tokens, oldToken);
      if confirm && i >= 0 && h1.tokens[i].kind.Contact? && h1.tokens[i].kind.mailbox == owner
      then (TouchToken(h1, i, h1.tokens[i].kind.(graceUntil := Some(h1.now + CONTACT_GRACE_SECS))), Ok(()))
      else (h1, Ok(()))
  }

  function PublishPrekey(h: Home, owner: Key, blob: Blob): (Home, Reply<()>) {
    if !Enabled(h, owner) then (h, Err(Denied))
    else
      var queue := if owner in h.prekeys then h.prekeys[owner] else [];
      (h.(prekeys := h.prekeys[owner := queue + [blob]],
          dirty := h.dirty.(prekeys := h.dirty.prekeys + {owner})), Ok(()))
  }

  predicate ShareUsable(kind: TokenKind, now: nat) {
    kind.Share? && !kind.burned && now < kind.expiresAt
  }

  function FetchPrekey(h: Home, token: Key): (Home, Reply<Blob>) {
    var i := LastIndex(h.tokens, token);
    if i < 0 || !ShareUsable(h.tokens[i].kind, h.now) then (h, Err(Denied))
    else
      var kind := h.tokens[i].kind;
      if kind.reserved.Some? then (h, Ok(kind.reserved.value))
      else if kind.mailbox !in h.prekeys || h.prekeys[kind.mailbox] == [] then (h, Err(Denied))
      else
        var queue := h.prekeys[kind.mailbox];
        var h1 := h.(prekeys := h.prekeys[kind.mailbox := queue[1..]],
                     dirty := h.dirty.(prekeys := h.dirty.prekeys + {kind.mailbox}));
        (TouchToken(h1, i, kind.(reserved := Some(queue[0]))), Ok(queue[0]))
  }

  // ----------------------------------------------------------------- mailbox

  /** Row keys of one owner. */
  function Keyed(owner: Key, seqs: set<nat>): (r: set<(Key, nat)>)
    ensures forall k :: k in r <==> k.0 == owner && k.1 in seqs
  {
    var r := set s | s in seqs :: (owner, s);
    assert forall k: (Key, nat) :: k.0 == owner && k.1 in seqs ==> k == (owner, k.1);
    r
  }

  /** Drop `gone` from a mailbox and journal the exact rows, if there are any. */
  ghost function DropRows(h: Home, owner: Key, gone: set<nat>): Home
    requires owner in h.mailboxes
  {
    if gone == {} then h
    else h.(mailboxes := h.mailboxes[owner := Trim(h.mailboxes[owner], h.mailboxes[owner].rows.Keys - gone)],
            dirty := h.dirty.(mailboxDropped := h.dirty.mailboxDropped + Keyed(owner, gone),
                              identities := h.dirty.identities + {owner}))
  }

  ghost function Gc(h: Home, owner: Key): Home {
    if owner !in h.mailboxes then h
    else DropRows(h, owner, h.mailboxes[owner].rows.Keys - Retained(h.mailboxes[owner].rows, h.now, h.limits))
  }

  function AuthorizeAppend(h: Home, token: Key): (Home, Reply<Key>) {
    var i := LastIndex(h.tokens, token);
    if i < 0 then (h, Err(Denied))
    else
      var kind := h.tokens[i].kind;
      match kind
      case Share(owner, _, _, _) =>
        if !ShareUsable(kind, h.now) || (owner in h.mailboxes && h.mailboxes[owner].disabled) then (h, Err(Denied))
        else (h, Ok(owner))
      case Contact(owner, grace, start, count) =>
        if grace.Some? && h.now >= grace.value then (h, Err(Denied))
        else
          var reset := SatSub(h.now, start) >= 60;
          var start1 := if reset then h.now else start;
          var count1 := if reset then 0 else count;
          if count1 >= RATE_PER_MIN then (h, Err(Denied))
          else
            var h1 := TouchToken(h, i, Contact(owner, grace, start1, count1 + 1));
            (h1, if owner in h.mailboxes && h.mailboxes[owner].disabled then Err(Denied) else Ok(owner))
  }

  function BurnIfShare(h: Home, token: Key): Home {
    var i := LastIndex(h.tokens, token);
    if i >= 0 && h.tokens[i].kind.Share? && !h.tokens[i].kind.burned
    then TouchToken(h, i, h.tokens[i].kind.(burned := true))
    else h
  }

  /** The row reaches memory and the journal, before burning and retention. */
  function Store(h: Home, owner: Key, inner: Inner, size: nat): Home
    requires owner in h.mailboxes
  {
    var m := h.mailboxes[owner];
    h.(mailboxes := h.mailboxes[owner := StoreRow(m, h.now, h.limits, inner, size)],
       dirty := h.dirty.(mailboxNew := h.dirty.mailboxNew + [(owner, m.nextSeq)],
                         identities := h.dirty.identities + {owner}))
  }

  ghost function AppendInner(h: Home, inner: Inner): (Home, Reply<nat>) {
    match AuthorizeAppend(h, inner.capability)
    case (h1, Err(e)) => (h1, Err(e))
    case (h1, Ok(owner)) =>
      if owner !in h1.mailboxes then (h1, Err(Denied))
      else
        var m := h1.mailboxes[owner];
        if inner.idem in m.idem then (h1, Ok(m.idem[inner.idem]))
        else match PaddedLen(inner)
             case None => (h1, Err(Wire))
             case Some(size) =>
               (Gc(BurnIfShare(Store(h1, owner, inner, size), inner.capability), owner), Ok(m.nextSeq))
  }

  function NoteSeen(h: Home, enc: Key, seqNo: nat): Home {
    var wrapped := |h.seen| >= HPKE_ENC_WINDOW;
    var cleared := h.dirty.seenCleared || wrapped;
    h.(seen := (if wrapped then map[] else h.seen)[enc := seqNo],
       dirty := h.dirty.(seenCleared := cleared,
                         seenNew := if cleared then h.dirty.seenNew else h.dirty.seenNew + [enc]))
  }

  ghost function Ingest(h: Home, enc: Option<Key>, plain: Option<Inner>): (Home, Reply<nat>) {
    if enc.None? then (h, Err(Wire))
    else if enc.value in h.seen then (h, Ok(h.seen[enc.value]))
    else if plain.None? then (h, Err(Wire))
    else match AppendInner(h, plain.value)
         case (h1, Err(e)) => (h1, Err(e))
         case (h1, Ok(s)) => (NoteSeen(h1, enc.value, s), Ok(s))
  }

  function MarkAcked(d: HomeDirty, owner: Key, upTo: U64): HomeDirty {
    d.(mailboxAcked := d.mailboxAcked[owner := MaxMark(Get(d.mailboxAcked, owner), upTo)],
       identities := d.identities + {owner})
  }

  /** An authenticated acknowledgement. */
  ghost function Ack(h: Home, owner: Key, upTo: U64): (Home, Reply<()>) {
    if owner !in h.mailboxes then (h, Err(OwnerAuth))
    else if forall s :: s in h.mailboxes[owner].rows ==> s > upTo then (h, Ok(()))
    else (h.(mailboxes := h.mailboxes[owner := AckRows(h.mailboxes[owner], upTo)],
             dirty := MarkAcked(h.dirty, owner, upTo)), Ok(()))
  }

  // --------------------------------------------------------------- federation

  function MarkPeer(h: Home, id: Key, p: Peer): Home {
    h.(peers := h.peers[id := p], dirty := h.dirty.(peers := h.dirty.peers + {id}))
  }

  function Pin(h: Home, id: Key, bundle: Blob, verified: bool): Home {
    if !verified || id == h.serverId then h
    else if id in h.peers then MarkPeer(h, id, h.peers[id].(bundle := bundle))
    else MarkPeer(h, id, Peer(bundle, false, 0, 1, false, 0, 0, map[]))
  }

  function Refuse(h: Home, id: Key): Home {
    if id in h.peers then MarkPeer(h, id, h.peers[id].(refused := true)) else h
  }

  function RotateSign(h: Home, id: Key, bundle: Blob, verified: bool): Home {
    if id in h.peers && verified then MarkPeer(h, id, h.peers[id].(bundle := bundle)) else h
  }

  function ResetLink(h: Home, id: Key): Home {
    if id in h.peers then MarkPeer(h, id, h.peers[id].(lastRx := 0, nextTx := 1, helloDone := false)) else h
  }

  function TakeFrame(h: Home, peer: Key, payload: Payload): (Home, Reply<Frame>) {
    if peer !in h.peers then (h, Err(NotPinned))
    else if h.peers[peer].refused then (h, Err(PeerRefused))
    else
      var p := h.peers[peer];
      (MarkPeer(h, peer, p.(nextTx := p.nextTx + 1)), Ok(Frame(p.nextTx, payload)))
  }

  /** A peer's record once its per-second window is brought up to date. */
  function Windowed(p: Peer, now: nat): Peer {
    if p.windowSec != now then p.(windowSec := now, windowOk := 0) else p
  }

  /** A peer's record once a ciphertext of it was ingested under `s`. */
  function Noted(p: Peer, enc: Key, s: nat): Peer {
    p.(windowOk := p.windowOk + 1, seen := (if |p.seen| >= HPKE_ENC_WINDOW then map[] else p.seen)[enc := s])
  }

  /** Rate-limit and deduplicate a peer's ciphertext, then ingest it. */
  ghost function HandleCiphertext(h: Home, from: Key, enc: Option<Key>, plain: Option<Inner>): (Home, Payload)
    requires from in h.peers
  {
    if enc.None? then (h, Fail)
    else
      var p1 := Windowed(h.peers[from], h.now);
      var h1 := h.(peers := h.peers[from := p1]);
      if p1.windowOk >= PEER_RATE_PER_SEC then (h1, Fail)
      else if enc.value in p1.seen then (h1, OkSeq(p1.seen[enc.value]))
      else match Ingest(h1, enc, plain)
           case (h2, Err(_)) => (h2, Fail)
           case (h2, Ok(s)) => (h2.(peers := h2.peers[from := Noted(p1, enc.value, s)]), OkSeq(s))
  }

  ghost function AcceptFrame(h: Home, from: Key, frame: Frame): (Home, Reply<Payload>) {
    if from !in h.peers then (h, Err(NotPinned))
    else if h.peers[from].refused then (h, Err(PeerRefused))
    else if frame.counter <= h.peers[from].lastRx then (h, Ok(OkSeq(0)))
    else if frame.counter != h.peers[from].lastRx + 1 then (h, Err(CounterGap))
    else
      var h1 := MarkPeer(h, from, h.peers[from].(lastRx := frame.counter));
      match frame.payload
      case Malformed => (h1, Err(Wire))
      case Hello(sender, receiver) =>
        if sender != from || receiver != h.serverId then (h1, Err(HelloMismatch))
        else (h1, Ok(Ciphertext(None, None)))
      case OkSeq(_) => (h1, Ok(frame.payload))
      case Fail => (h1, Ok(frame.payload))
      case Ciphertext(enc, plain) =>
        var (h2, reply) := HandleCiphertext(h1, from, enc, plain);
        (h2, Ok(reply))
  }

  function SetOutbound(h: Home, rows: seq<OutboundRow>): Home {
    h.(outbound := rows, dirty := h.dirty.(outbound := true))
  }

  ghost function Enqueue(h: Home, outer: Outer): Home {
    if outer.dest == h.serverId then Ingest(h, outer.enc, outer.plain).0
    else SetOutbound(h, h.outbound + [OutboundRow(outer.dest, outer, h.now, h.now, 1)])
  }

  function DeferOutbound(h: Home, until: nat): Home {
    if h.outbound == [] then h
    else SetOutbound(h, seq(|h.outbound|, i requires 0 <= i < |h.outbound| => h.outbound[i].(nextAttempt := until)))
  }
}
