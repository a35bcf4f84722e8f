# Nemo: verified models of the messenger's servers, client sequencing and wire codec

Nemo is an end-to-end encrypted messenger. Home servers keep bounded mailboxes behind capabilities, forward
envelopes to each other over counted links, and host group streams; every change is written through to PostgreSQL
by an incremental journal. Clients work through their mailbox with a cursor and a retry budget, and agree on MLS
group state through one ordered stream. Everything on the wire is a deterministic CBOR subset.

This project models six connected parts of it in Dafny and proves what they promise:

- **Home server** — `HomeState` (each mutator as a function), `HomeRun` (runs and the memory invariant),
  `HomeServer` (the object with its loops), `HomeJournal` and `HomeDurability` (tables, flush, and the theorem that
  the incremental journal equals a full snapshot), `Persist` (row loops), `Reload` (loading loops of both servers),
  `Retention`, `Lifetimes` (the life of a row, in seconds and bytes), `TokenMoves`, `TokenLives` (the life of a
  capability), `Capabilities`, `Sweeping`, `Thinning` (reclaimed tokens over whole runs), `Replays` (repeated
  ciphertexts, busy and refused peers), `Identities`, `OwnerAuth`.
- **Group stream host** — `GroupState`, `GroupLaws` (credential life cycle, invites, stream, files), `GroupEffects`
  (what an append does, for every kind), `GroupLives` (invites, joiners and files from beginning to end), `GroupHost`
  (the object), `GroupJournal`, `GroupDurability`, `GroupPersist` (one transaction for both servers).
- **MLS commit sequencing** — `Mls` (tree, validation, staging), `MlsEffects` (what a commit does, leaf by leaf),
  `MlsAgreement` (agreement over a shared stream), `MlsClient` (the object).
- **Server-to-server links** — `Federation` (in-order exactly-once processing over a lossy network), `Pump`, `Trust`
  (when its delivered count is right, from any counters) and `PumpRuns` (when each queued row is tried, over whole runs).
- **End-to-end delivery** — `Delivery`: the mailbox together with the client that fetches it.
- **Wire** — `Utf8`, `CborHead`, `Cbor`, `CborReading`, `CborCodec`, and `Ice`, `App`, `AppCodec` for application messages.

`dafny verify dfyconfig.toml` checks everything.

## How the code is represented

State that the code updates in place is a class whose methods end in exactly the state a pure transition gives; the
theorems are about those transitions and about runs of them. Signatures, HPKE, padding and hashing are values or
verdicts carried by the inputs: a signed object names the key it verifies under, an envelope carries what opening
it would give. Random ids arrive as parameters and are assumed new. The clock is a parameter; where a result needs
it not to run backwards, the statement says so. A transaction applies all of its row operations or none. OpenMLS is
an epoch and a map of leaves: a commit for another epoch changes nothing, a commit by a member verifies under that
member's leaf key, and signature keys in a tree are distinct.

Four places where the code does less than its surroundings suggest are kept as they are and characterised exactly, for
every journal and every database it lags behind:

- An acknowledgement cursor of 2^63 or more is bound to a signed column and deletes nothing, and it swallows a smaller
  mark that was pending (`HomeDurability.AckDriftsExactly`, `HomeDurability.WideMarkHidesPendingOne`).
- A share token registered twice is looked up by its last row and persisted from its first
  (`HomeDurability.DuplicateTokenDrifts`).
- A membership for an identity that is not registered makes every later persist fail
  (`HomeDurability.UnknownMemberBlocksPersist`).
- Redeeming an expired invite drops it from memory without a journal entry
  (`GroupDurability.RedeemDriftsExactly`).

In the same way, a value whose maps repeat a key encodes but does not decode (`Cbor.RoundTripExactly`), a swept
contact capability without a grace deadline would still have worked (`Sweeping.SweepIsInvisible`), a row counted as
delivered was processed only if the link counters are not behind (`Trust.DeliveredMeansProcessed`, with both failing
sides in `Trust.StaleFrameIsLost` and `Trust.StaleReplyIsBelieved`), an owner request can be replayed if the clock
steps back (`OwnerAuth.ReplayedExactly`), and a key change whose announcement is missing is merged by its author alone
(`MlsAgreement.EchoAgreesExactly`).

## Model

| member | source | states |
|---|---|---|
| `HomeServers.HomeServer.RegisterIdentity` | crates/nemo-server/src/home.rs:434-452 | a first registration creates an empty mailbox and marks the identity; a second one changes nothing |
| `HomeServers.HomeServer.RegisterCard` | crates/nemo-server/src/home.rs:454-473 | a verified card for this server registers the identity, its directory row and its share token; anything else changes nothing |
| `HomeServers.HomeServer.Observe` | crates/nemo-server/src/home.rs:491-541 | only a verified binding with a higher sequence number is taken; one that names another server wipes and disables the mailbox |
| `HomeServers.HomeServer.NoteGroupMembership` | crates/nemo-server/src/home.rs:543-550 | a group is listed once per identity and the list is marked when it changes |
| `HomeServers.HomeServer.Revoke` | crates/nemo-server/src/home.rs:552-573 | a verified revocation is recorded, wipes the mailbox, and returns and forgets the groups of the identity |
| `HomeServers.HomeServer.RegisterShareToken` | crates/nemo-server/src/home.rs:598-620 | only an enabled mailbox and an allowed lifetime get a token, which is appended to the token list |
| `HomeServers.HomeServer.MintContactCapability` | crates/nemo-server/src/home.rs:622-640 | dead capabilities of the owner are swept first, then the new one is appended |
| `HomeServers.HomeServer.Rotate` | crates/nemo-server/src/home.rs:642-668 | a new capability is minted and, on confirmation, the old one gets its 72 hour grace deadline |
| `HomeServers.HomeServer.Publish` | crates/nemo-server/src/home.rs:670-676 | prekeys are queued in order, for enabled mailboxes only |
| `HomeServers.HomeServer.TakePrekey` | crates/nemo-server/src/home.rs:678-712 | the first fetch through a usable share token reserves the head of the queue; later ones return the reservation |
| `HomeServers.HomeServer.IngestOuter` | crates/nemo-server/src/home.rs:714-730 | a ciphertext whose encapsulated key was seen answers as before and stores nothing; the window clears itself when full |
| `HomeServers.HomeServer.Append` | crates/nemo-server/src/home.rs:732-763 | authorise, deduplicate by idempotency token, store under the next number, burn a share token, then collect |
| `HomeServers.HomeServer.FetchRows` | crates/nemo-server/src/home.rs:765-785 | succeeds exactly for an admitted request with a limit of 1 to 256, and tells which test failed; then the reply is exactly the first `limit` live rows after the cursor, in order; the nonce is used up even if the limit is refused |
| `HomeServers.HomeServer.AckUpTo` | crates/nemo-server/src/home.rs:787-812 | succeeds exactly for an admitted request; rows up to the cursor are dropped, idempotency tokens kept, and the mark journalled only if something was dropped |
| `HomeServers.HomeServer.CheckOwner` | crates/nemo-server/src/home.rs:814-842 | a request is accepted exactly if the mailbox is enabled and the request genuine, fresh and with a nonce not remembered; remembered nonces are pruned |
| `HomeServers.HomeServer.DisableMailbox` | crates/nemo-server/src/home.rs:858-876 | rows, capabilities and prekeys of the owner go, and nothing of anybody else |
| `HomeServers.HomeServer.Authorize` | crates/nemo-server/src/home.rs:878-922 | share tokens by expiry and burning, contact capabilities by grace and a 30 per minute window, which is charged |
| `HomeServers.HomeServer.Burn` | crates/nemo-server/src/home.rs:924-931 | a share token is burned once and marked |
| `HomeServers.HomeServer.GcMailbox` | crates/nemo-server/src/home.rs:933-962 | the two loops leave exactly the retained rows and journal exactly the dropped ones |
| `HomeServers.HomeServer.SweepDeadTokensFor` | crates/nemo-server/src/home.rs:977-1018 | removes exactly the reclaimable capabilities of one owner |
| `HomeServers.HomeServer.SweepDeadTokens` | crates/nemo-server/src/home.rs:1020-1084 | one pass finds every newest capability, a second removes exactly the reclaimable ones of all owners |
| `HomeServers.HomeServer.NewestContact` | crates/nemo-server/src/home.rs:1086-1112 | the index of the owner's newest contact capability: greatest window start, ties to the later row |
| `HomeServers.HomeServer.DropTokensExact` | crates/nemo-server/src/home.rs:1114-1125 | dropped tokens leave memory, are journalled for deletion, and lose any pending upsert |
| `HomeServers.HomeServer.FindToken` | crates/nemo-server/src/home.rs:1134-1142 | the last row for a token, which is what every memory lookup uses |
| `HomeServers.HomeServer.EnqueueOuter` | crates/nemo-server/src/home.rs:376-389 | an envelope for this server is ingested and answered as ingestion answers, any other is queued with a backoff of one second |
| `HomeServers.HomeServer.Defer` | crates/nemo-server/src/home.rs:409-416 | every queued row gets the new attempt time and nothing else changes |
| `HomeServers.HomeServer.TakeNextFrame` | crates/nemo-server/src/federation.rs:239-252 | frames are numbered from the send counter, which advances by one |
| `HomeServers.HomeServer.Accept` | crates/nemo-server/src/federation.rs:254-284 | only the next counter is processed; older ones are answered without effect, later ones are a gap |
| `HomeServers.HomeServer.Handle` | crates/nemo-server/src/federation.rs:286-322 | per-second limit, per-peer duplicate table, then ingestion; the table clears itself when full |
| `HomeServers.HomeServer.Reset` | crates/nemo-server/src/federation.rs:194-201 | both counters of a link return to their start |
| `HomeServers.RemoveRows` | crates/nemo-server/src/home.rs:1169-1179 | removing rows one by one, in any order, forgets exactly them and their idempotency entries |
| `HomeServers.DropOldest` | crates/nemo-server/src/home.rs:951-957 | dropping the oldest row while over the limit leaves the longest suffix that fits |
| `HomeServers.Collect` | crates/nemo-server/src/home.rs:933-962 | expiry then size: the surviving rows are the retained set |
| `HomeServers.FirstRows` | crates/nemo-server/src/home.rs:778-785 | the batch is the first rows after the cursor: none skipped, none repeated, in order, at most `limit` |
| `HomeServers.DropAcked` | crates/nemo-server/src/home.rs:794-808 | rows above the cursor stay, the byte count stays exact |
| `HomeRun.StepValid` | crates/nemo-server/src/home.rs:434-962 | every mutator, whatever its outcome, keeps: exact byte counts, own sequence numbers, one live row per idempotency token, distinct tokens of enabled mailboxes, directory, prekey and membership consistency |
| `Retention.GcKeepsLongestSuffix` | crates/nemo-server/src/home.rs:933-962 | collection leaves exactly the longest sequence suffix of unexpired rows that fits the limit |
| `Lifetimes.GcKeepsExactly` | crates/nemo-server/src/home.rs:933-962 | after a collection a row is held if and only if its deadline is ahead, it is within the maximum age, and it fits the limit together with the newer rows of which this is true; its idempotency entry goes with it |
| `Lifetimes.StepMoves` | crates/nemo-server/src/home.rs:434-962 | what every operation does to the rows and entries of every mailbox: stored and collected, collected, acknowledged, wiped, or nothing |
| `Lifetimes.StoredRowStays` | crates/nemo-server/src/home.rs:732-962 | over any run a stored row is held, unchanged, if and only if since then it was not acknowledged, the mailbox not closed, and at each collection its deadline (60 s, 1 h, 24 h or the maximum age) was ahead, its age allowed, and newer rows left room |
| `Lifetimes.AppendedRowIsThere` | crates/nemo-server/src/home.rs:732-763 | right after its append a row is held if and only if its padded size fits the limit and there is time left |
| `Lifetimes.FetchShows` | crates/nemo-server/src/home.rs:765-785 | a stored row that lasted is in every batch it belongs to, one that did not is in none |
| `Lifetimes.RetryAnswered` | crates/nemo-server/src/home.rs:740-748 | over any run, an append repeated with the same idempotency token is answered with the first number and moves no mailbox if and only if the row was not lost to collection or closing |
| `Lifetimes.AppendReply` | crates/nemo-server/src/home.rs:732-763 | what an authorised append answers: the old number, the next number, or that it fits no bucket |
| `Lifetimes.PaddedSizes` | crates/nemo-wire/src/envelope.rs:154-185 | the five padded sizes in bytes |
| `Retention.StepEvolves` | crates/nemo-server/src/home.rs:732-812 | any step adds at most one row per mailbox, under the next number, changes none, and never exceeds the byte limit |
| `Retention.SeqsNeverReused` | crates/nemo-server/src/home.rs:732-763 | over any run a number names the same row until it is dropped and never names another |
| `Retention.RunValid` | crates/nemo-server/src/home.rs:434-962 | the memory invariant holds in every state of every run |
| `HomeJournal.StepLag` | crates/nemo-server/src/home.rs:128-220 | after any mutator the database trails memory by exactly what the journal lists, table by table; for acknowledgements that land |
| `HomeJournal.AckLag` | crates/nemo-server/src/pg.rs:298-309 | an acknowledgement that lands keeps the lag: its mark fits the signed column, or it drops nothing, or every persisted row it covers goes anyway |
| `HomeJournal.FlushIsSnapshot` | crates/nemo-server/src/pg.rs:117-185 | flushing the journal violates no key, unique index or reference, and gives a full snapshot of memory |
| `HomeJournal.SnapshotHasNoLag` | crates/nemo-server/src/pg.rs:754-929 | a snapshot with an empty journal lags in nothing |
| `HomeDurability.JournalRefinement` | crates/nemo-server/src/pg.rs:103-185 | over any run of mutators, failed and committed persists and restarts: no persist is refused, every committed one equals a full snapshot, and one at any moment would |
| `HomeDurability.RestartPossible` | crates/nemo-server/src/pg.rs:754-929 | in every good world a restart has an outcome, and a good one |
| `HomeDurability.SnapshotLoads` | crates/nemo-server/src/pg.rs:754-929 | loading the tables of any sound memory has a result, named outright |
| `HomeDurability.ReloadRestores` | crates/nemo-server/src/pg.rs:754-1120 | loading a snapshot gives back every mailbox, directory entry, capability, queue, membership, queued envelope and window entry, and of every peer the bundle, refusal and both counters; idempotency entries are cut down to live rows, per-second counts start afresh |
| `HomeDurability.RestartBringsBack` | crates/nemo-server/src/pg.rs:103-185 | over any run, a restart brings back the memory of the last committed persist, field by field, whatever happened since |
| `HomeDurability.CleanMeansSynced` | crates/nemo-server/src/pg.rs:103-107 | an empty journal means the tables already equal memory |
| `HomeDurability.AbsorbIntoClean` | crates/nemo-server/src/home.rs:191-212 | putting a drained journal back loses nothing |
| `HomeDurability.AbsorbKeepsBoth` | crates/nemo-server/src/home.rs:191-212 | absorbing one journal into another keeps every mark of both, acknowledgement marks at the larger |
| `HomeDurability.FlushCleanIsNoop` | crates/nemo-server/src/pg.rs:104-106 | flushing an empty journal writes nothing |
| `HomeDurability.AckDriftsExactly` | crates/nemo-server/src/pg.rs:298-309 | from any journal over any lagging database: the next flush equals memory exactly when the acknowledgement lands, that is the merged mark is below 2^63, or nothing was acknowledged, or every persisted row up to the cursor is deleted anyway |
| `HomeDurability.WideMarkHidesPendingOne` | crates/nemo-server/src/pg.rs:298-309 | a cursor of 2^63 or more swallows a smaller mark that was still pending: a row the next flush would have deleted now stays |
| `HomeDurability.DuplicateTokenDrifts` | crates/nemo-server/src/pg.rs:376-391 | registering a token under any journal over any lagging database: what the next flush writes is what lookups use exactly when the token was not held or held with the same fields |
| `HomeDurability.UnknownMemberBlocksPersist` | crates/nemo-server/src/pg.rs:461-482 | noting a membership leaves the journal committable exactly when the identity is registered |
| `Persistence.UpsertIdentities` | crates/nemo-server/src/pg.rs:240-272 | every marked identity gets the columns memory gives now, others stay |
| `Persistence.DeleteMail` | crates/nemo-server/src/pg.rs:274-309 | deletes by owner, by exact row and up to each mark, in that order |
| `Persistence.ResolveNew` | crates/nemo-server/src/pg.rs:311-335 | journalled rows that memory no longer holds are skipped, order kept |
| `Persistence.ResolveSeen` | crates/nemo-server/src/pg.rs:533-545 | journalled keys no longer in the window are skipped, order kept |
| `Persistence.InsertMail` | crates/nemo-server/src/pg.rs:311-352 | rows are inserted one by one, stopping at the first that hits a row key, an idempotency index or a missing identity: success exactly if none does, and then exactly these rows are added |
| `Persistence.InsertSeen` | crates/nemo-server/src/pg.rs:533-545 | keys are inserted one by one, stopping at the first that is there already |
| `Persistence.WriteTokens` | crates/nemo-server/src/pg.rs:354-435 | deletes by owner and exactly, then upserts the marked tokens memory still holds, failing exactly if an owner is not registered |
| `Persistence.WritePrekeys` | crates/nemo-server/src/pg.rs:437-459 | each marked owner's queue is deleted and written again, failing exactly if a non-empty one has no identity |
| `Persistence.WriteMemberships` | crates/nemo-server/src/pg.rs:461-482 | each marked identity's list is deleted and written again, failing exactly if a non-empty one has no identity |
| `Persistence.UpsertPeers` | crates/nemo-server/src/pg.rs:484-509 | each marked peer gets its bundle, refusal and counters |
| `Persistence.PersistInner` | crates/nemo-server/src/pg.rs:117-185 | the row operations of the home half compute the flush; they stop at the first conflict, and that is exactly when some constraint on the whole flush is violated |
| `TokenMoves.TokenStep` | crates/nemo-server/src/home.rs:670-931 | what any step does to one capability: minted, charged, reserved, burned, given grace, removed, or nothing |
| `TokenMoves.QueueStep` | crates/nemo-server/src/home.rs:670-712 | what any step does to one prekey queue: append, hand out the head, clear, or nothing |
| `TokenLives.TokenGoes` | crates/nemo-server/src/home.rs:858-1084 | a capability is taken away if and only if its mailbox is closed, or a sweep finds it spent: a share token a day after expiry, a week if it holds a prekey; a contact capability that is outranked, out of grace and idle for thirty days |
| `TokenLives.ShareLife` | crates/nemo-server/src/home.rs:598-620 | over any run, a share token opened for so many seconds lets an append through if and only if they have not passed, no row was stored through it, and its mailbox was not closed; sweeps make no difference |
| `TokenLives.RegisterShareExactly` | crates/nemo-server/src/home.rs:598-620 | share tokens are for enabled mailboxes and 300, 1800 or 3600 seconds |
| `TokenLives.ContactAuthorizes` | crates/nemo-server/src/home.rs:895-922 | a contact capability lets an append through exactly within its grace and 30 per 60 seconds |
| `TokenLives.PrekeyAnswer` | crates/nemo-server/src/home.rs:678-711 | a prekey fetch answers with the reservation, the head of the queue, or a denial |
| `TokenLives.RotateExactly` | crates/nemo-server/src/home.rs:642-668 | the new capability is open at once, a confirmed old one of the mailbox has 259200 seconds more, any other is unchanged |
| `Replays.CiphertextReplay` | crates/nemo-server/src/home.rs:714-730 | over any run, a ciphertext brought in again is answered with its number and changes nothing until the window of 1024 starts over, which forgets it |
| `Replays.WindowBounded` | crates/nemo-server/src/home.rs:714-730 | the window never holds more than 1024 |
| `Replays.FrameReplay` | crates/nemo-server/src/federation.rs:286-322 | over any run, a peer repeating a ciphertext is told the first number and moves no mailbox until its table starts over, unless it is over its hundred per second |
| `Replays.PeerRateBound` | crates/nemo-server/src/federation.rs:286-322 | over any run, no peer gets more than 100 ciphertexts in during one second |
| `Replays.NextFrameLaw` | crates/nemo-server/src/federation.rs:254-322 | what a ciphertext that is next in turn does to the peer's count and table, and what the peer is told |
| `Replays.RefusedForGood` | crates/nemo-server/src/federation.rs:84-128 | a peer is refused exactly if somebody refused it, for good, and then none of its frames does anything; its bundle is the last verified one |
| `Identities.NewestBinding` | crates/nemo-server/src/home.rs:491-541 | over any run a directory entry keeps its keys and has the newest verified binding presented |
| `Identities.RevocationStands` | crates/nemo-server/src/home.rs:552-573 | over any run the directory has the statement of the last verified revocation |
| `Identities.ClosedExactly` | crates/nemo-server/src/home.rs:491-573 | over any run a mailbox is closed exactly if a verified revocation or a newer binding to another server came, and then it holds no rows and no capabilities |
| `Identities.MembershipHistory` | crates/nemo-server/src/home.rs:543-573 | over any run memberships are exactly the groups noted since the last revocation |
| `Identities.BooksMove` | crates/nemo-server/src/home.rs:434-573 | what every operation does to one directory entry and one membership |
| `Identities.RevocationAnswer` | crates/nemo-server/src/home.rs:552-573 | a revocation answers with the groups the identity was in |
| `Identities.RegisterExactly` | crates/nemo-server/src/home.rs:434-452 | once per identity, an open empty mailbox that counts from one |
| `Identities.EnrolExactly` | crates/nemo-server/src/home.rs:454-473 | a card enrols exactly if verified, for this server and new; with a share token for 1800 seconds |
| `Capabilities.PrekeyConservation` | crates/nemo-server/src/home.rs:670-712 | blobs reserved so far in order, followed by the queue, are the blobs published; no publication goes to two tokens |
| `Capabilities.SamePrekeyEveryTime` | crates/nemo-server/src/home.rs:678-712 | a share token gets the same blob on every fetch that succeeds |
| `Capabilities.ShareStoresOnce` | crates/nemo-server/src/home.rs:732-763 | over a run at most one row is stored through one share token |
| `Capabilities.ContactRateBound` | crates/nemo-server/src/home.rs:889-909 | at most 60 appends through one contact capability in any 60 seconds, at most 30 per window |
| `Capabilities.RateBound` | crates/nemo-server/src/home.rs:889-909 | 60 second windows with at most 30 entries each: any closed minute meets at most two |
| `Capabilities.ChargedIsAuthorised` | crates/nemo-server/src/home.rs:878-922 | an append is counted against a contact capability exactly when authorisation lets it through |
| `Capabilities.StoredIsNewRow` | crates/nemo-server/src/home.rs:732-763 | a row is recorded as stored exactly when the mailbox counter moves |
| `Capabilities.RunSound` | crates/nemo-server/src/home.rs:670-931 | the whole capability ledger stays consistent in every state of every run |
| `Capabilities.EmptySound` | crates/nemo-server/src/home.rs:223-256 | a server without capabilities and prekeys starts with an empty ledger, so every run from a new server is covered |
| `OwnerAuth.SingleUse` | crates/nemo-server/src/home.rs:814-842 | no signed owner request is accepted twice, although old nonces are forgotten |
| `OwnerAuth.AcceptedExactly` | crates/nemo-server/src/home.rs:814-842 | accepted exactly if signed within 120 seconds of the clock either way and with no such nonce of that age around |
| `OwnerAuth.Remembered` | crates/nemo-server/src/home.rs:839-842 | an accepted nonce is remembered until its timestamp is too old to be accepted |
| `OwnerAuth.RememberedExactly` | crates/nemo-server/src/home.rs:831-842 | under any clock an accepted nonce is remembered exactly until an arrival past its age prunes it |
| `OwnerAuth.ReplayedExactly` | crates/nemo-server/src/home.rs:814-842 | under any clock an accepted request is accepted again exactly if it is fresh again and an arrival in between pruned its nonce |
| `OwnerAuth.ClockRollbackReplays` | crates/nemo-server/src/home.rs:826-840 | a concrete replay: the clock passes the age of the request and steps back |
| `Sweeping.SweepEachIsSweep` | crates/nemo-server/src/home.rs:977-1084 | the one-pass sweep equals the per-mailbox sweeps, in any order and number |
| `Sweeping.SweepIdempotent` | crates/nemo-server/src/home.rs:1020-1084 | a second sweep at the same time removes nothing |
| `Sweeping.SweepKeeps` | crates/nemo-server/src/home.rs:1086-1112 | the newest contact capability of an enabled mailbox and any in its grace period stay |
| `Sweeping.SweepIsInvisible` | crates/nemo-server/src/home.rs:977-1084 | the next request, whenever it comes, is answered as without the sweep, except through a swept contact capability, which would have been let through exactly if it had no grace deadline |
| `Thinning.StepThin` | crates/nemo-server/src/home.rs:878-1125 | any operation, done on a server and on one that lacks some dead share tokens, leaves them apart by dead share tokens only |
| `Thinning.RunThin` | crates/nemo-server/src/home.rs:878-1125 | over any run of operations side by side, every prekey fetch, authorisation, append, ingestion and frame is answered alike in every state |
| `Thinning.ShareSweepIsInvisible` | crates/nemo-server/src/home.rs:1020-1084 | a sweep and one that spares share tokens cannot be told apart by anything that happens afterwards |
| `Federation.AcceptMoves` | crates/nemo-server/src/federation.rs:254-284 | the next frame moves the receive counter by one whatever becomes of its payload, and is never a gap |
| `Federation.AcceptRefuses` | crates/nemo-server/src/federation.rs:259-272 | any other frame, or one from an unknown or refused peer, changes nothing |
| `Federation.FrameAnswers` | crates/nemo-server/src/federation.rs:254-284 | a next frame without ciphertext moves its counter and nothing else, and is answered by what it holds; a hello only if it names both servers |
| `Federation.TakeExactly` | crates/nemo-server/src/federation.rs:239-252 | frames are taken for pinned, unrefused peers only, and use up one number |
| `Federation.ResetExactly` | crates/nemo-server/src/federation.rs:194-201 | a reset link starts both counters over and the hello is to be said again |
| `Federation.StepSparesLink` | crates/nemo-server/src/federation.rs:194-284 | no operation other than framing, accepting or resetting touches a link's counters |
| `Federation.ProcessedIsPrefix` | crates/nemo-server/src/federation.rs:239-284 | between resets, with frames lost, repeated and reordered and anything else going on, processed payloads are a prefix of framed ones |
| `Federation.BackoffIsCappedPower` | crates/nemo-server/src/federation.rs:171-187 | after n failures the backoff is min(2^n, 300) |
| `PumpRuns.BackoffCountsFailures` | crates/nemo-server/src/federation.rs:141-187 | over any run of enqueueing, deferring, pumps and other work: every queued row's backoff is min(2^failures, 300), counting the attempts on that row that failed |
| `PumpRuns.RetriesOnTime` | crates/nemo-server/src/federation.rs:141-187 | over any run, in every pump: a row for the peer is given up after 14 days, put off before min(2^k, 300) seconds after its k-th failure or before the end of a delay ordered since, and otherwise tried, tallied as the exchange went, and taken out or kept accordingly |
| `PumpRuns.PumpIsItsTurns` | crates/nemo-server/src/federation.rs:130-192 | what a pump reports and leaves is the sum of these turns, one per queued row |
| `Pumping.RefusedPump` | crates/nemo-server/src/federation.rs:130-138 | a pump between servers of which one refuses or does not know the other says so and changes nothing |
| `Pumping.Greet` | crates/nemo-server/src/federation.rs:203-222 | hellos are exchanged both ways unless both sides have done so, stopping at the first error |
| `Pumping.Forward` | crates/nemo-server/src/federation.rs:224-233 | frame, accept, frame the reply, accept it; a failure reply is a denial |
| `Pumping.PumpRow` | crates/nemo-server/src/federation.rs:141-187 | one turn of the loop: skip, expire, defer, remove, back off, or reset both links and back off |
| `Pumping.Pump` | crates/nemo-server/src/federation.rs:130-192 | the in-place queue loop terminates and computes the pump of the whole queue |
| `Pumping.ForwardInStep` | crates/nemo-server/src/federation.rs:224-233 | counters in step stay in step without a gap, and the row is delivered exactly if the receiver processed it |
| `Pumping.HelloInStep` | crates/nemo-server/src/federation.rs:203-222 | in step, the hello exchange succeeds and stays in step |
| `Pumping.PumpCorrect` | crates/nemo-server/src/federation.rs:130-192 | in step: success, in step after, no gap, delivered+failed+deferred+expired is the number of rows for the peer, other rows untouched and in order |
| `Pumping.PumpRecovers` | crates/nemo-server/src/federation.rs:171-180 | from any counters the tally adds up, and after a gap the link is in step |
| `Pumping.HandledKeepsOthers` | crates/nemo-server/src/federation.rs:141-187 | rows of other peers keep their content and order, and a kept row is unchanged or backed off once |
| `Trust.DeliveredMeansProcessed` | crates/nemo-server/src/federation.rs:224-233 | whatever is reported delivered was processed by the receiver and answered with a number, exactly when the counters are trusted: not frame stale with the reply no further than due, and not frame due with the reply stale |
| `Trust.StaleFrameIsLost` | crates/nemo-server/src/federation.rs:266-268 | a stale frame whose reply is not ahead is reported delivered although no mailbox changed |
| `Trust.StaleReplyIsBelieved` | crates/nemo-server/src/federation.rs:266-268 | a refusal that comes in a stale reply frame is reported delivered |
| `Trust.ForwardOutcome` | crates/nemo-server/src/federation.rs:224-233 | from any counters: how one exchange ends and where it leaves all four counters |
| `Trust.TurnKeepsTrust` | crates/nemo-server/src/federation.rs:141-187 | trusted counters stay trusted over every turn of the loop, gaps and resets included |
| `Trust.DeliveredCountIsExact` | crates/nemo-server/src/federation.rs:141-192 | for every queue the delivered count is the number of rows processed, exactly when the counters are trusted at the start of the loop |
| `Trust.HelloTrust` | crates/nemo-server/src/federation.rs:203-222 | when the counters can be trusted after the hello exchange, in terms of the counters before it |
| `Trust.PumpCountIsExact` | crates/nemo-server/src/federation.rs:130-192 | for every queue the count a pump reports is exact, exactly when the caller could trust the counters before the call |
| `Delivery.Session.FetchNow` | crates/nemo-ffi/src/lib.rs:1759-1824 | the row loop: cursor to the last finished row, retry counts, stop at the first row to retry, loss notice |
| `Delivery.FinishedExactlyOnce` | crates/nemo-ffi/src/lib.rs:1759-1824 | over any interleaving of server work, fetches and acknowledgements, lost or not: rows up to the cursor are finished once, in order, or on record as dropped; at most 8 attempts; without drops exactly 1..cursor |
| `Delivery.FetchFinishes` | crates/nemo-ffi/src/lib.rs:1785-1820 | a fetch finishes exactly the rows up to the first that asks for a retry and was tried fewer than seven times before; that one is tried and left, and the cursor is the last finished row |
| `Delivery.DropsHaveCause` | crates/nemo-server/src/home.rs:933-962 | over any run every row on record as dropped was lost by closing the mailbox, or by a collection at which it had lapsed, was too old, or did not fit with the newer rows |
| `Delivery.LossNoticeIsExact` | crates/nemo-core/src/mailbox.rs:55-57 | the notice is shown exactly when a row between the cursor and the first fetched row was dropped |
| `Delivery.EightFetchesAdvance` | crates/nemo-ffi/src/lib.rs:1801-1818 | without drops, eight fetches that found rows waiting move the cursor |
| `Delivery.EventDelivers` | crates/nemo-core/src/home.rs:1157-1204 | every event keeps the accounts of rows, attempts and losses, and the cursor never goes back |
| `Delivery.BatchCovers` | crates/nemo-server/src/home.rs:778-785 | a fetched batch leaves out nothing that was waiting before its last row |
| `GroupHosts.GroupHost.constructor` | crates/nemo-server/src/group.rs:159-167 | a new host has no groups, no files and an empty journal |
| `GroupHosts.GroupHost.AuthorizeLive` | crates/nemo-server/src/group.rs:593-609 | a live credential with the matching secret digest, and nothing else |
| `GroupHosts.GroupHost.CountOwned` | crates/nemo-server/src/group.rs:183-192 | counts exactly the groups the owner created |
| `GroupHosts.GroupHost.CreateGroupFor` | crates/nemo-server/src/group.rs:177-224 | a new group has one live credential, an empty stream, and is refused above 64 per owner |
| `GroupHosts.GroupHost.StoreSignedInvite` | crates/nemo-server/src/group.rs:227-253 | only an invite for this group signed with the live member's key is stored |
| `GroupHosts.GroupHost.AcceptInvite` | crates/nemo-server/src/group.rs:255-297 | an invite is consumed at once; unexpired, it reserves a credential and a pending join |
| `GroupHosts.GroupHost.GcPending` | crates/nemo-server/src/group.rs:522-528 | exactly the expired invites and pending joins go |
| `GroupHosts.GroupHost.AdmitJoiner` | crates/nemo-server/src/group.rs:318-355 | a signed admission turns the reserved credential live with its key and target |
| `GroupHosts.GroupHost.Refresh` | crates/nemo-server/src/group.rs:369-382 | a live credential replaces its own fan-out target |
| `GroupHosts.GroupHost.Fan` | crates/nemo-server/src/group.rs:551-591 | the row is stored and numbered before copies are sealed, and stays if sealing fails |
| `GroupHosts.GroupHost.AppendRevocation` | crates/nemo-server/src/group.rs:358-367 | a host-made object goes through the same path |
| `GroupHosts.GroupHost.AppendRemoval` | crates/nemo-server/src/group.rs:456-479 | fan-out first, then the named credential dies |
| `GroupHosts.GroupHost.AppendKeyReplace` | crates/nemo-server/src/group.rs:530-549 | the new key is in force before the object is fanned out |
| `GroupHosts.GroupHost.LiveFileBytes` | crates/nemo-server/src/group.rs:514-520 | the loop sums exactly the unexpired reservations of the group |
| `GroupHosts.GroupHost.AppendReservation` | crates/nemo-server/src/group.rs:481-512 | a reservation needs a new token and room in the budget |
| `GroupHosts.GroupHost.AppendObject` | crates/nemo-server/src/group.rs:384-404 | dispatch by type, live members only |
| `GroupHosts.GroupHost.UploadFile` | crates/nemo-server/src/group.rs:407-431 | only the owner, in time, once, and with exactly the reserved size |
| `GroupHosts.LiveTargets` | crates/nemo-server/src/group.rs:574-579 | exactly the live credentials with a target |
| `GroupHosts.SealAll` | crates/nemo-server/src/group.rs:580-589 | fails exactly when some copy cannot be made |
| `GroupLaws.StepSound` | crates/nemo-server/src/group.rs:169-591 | every operation, successful or not: live exactly when there is a target, live has a key, pending joins name never-live credentials, stream dense and within its cap, files within the budget |
| `GroupLaws.RunSound` | crates/nemo-server/src/group.rs:169-591 | the same in every state of every run, and nothing moves but forwards |
| `GroupLaws.RemovedNeverReturns` | crates/nemo-server/src/group.rs:456-479 | a credential that was live and is not stays exactly as it is |
| `GroupLaws.CredentialsHaveOneOrigin` | crates/nemo-server/src/group.rs:255-355 | whatever is or was live was founded once, or reserved by exactly one redeemed invite and admitted once; no invite is redeemed more often than stored |
| `GroupLaws.RemovalReachesEveryone` | crates/nemo-server/src/group.rs:456-479 | a removal goes to exactly the live set before it, and then removes only the named credential |
| `GroupEffects.AppendExactly` | crates/nemo-server/src/group.rs:384-591 | for every kind of object: exactly when an append succeeds, the row it leaves (number, kind, body, time) even if sealing fails, that exactly the live credentials get copies, and the one credential or slot it changes |
| `GroupEffects.HostRevocationExactly` | crates/nemo-server/src/group.rs:358-367 | objects the host makes are stored and copied the same way |
| `GroupLives.InviteLife` | crates/nemo-server/src/group.rs:227-297 | over any run an invite stored for `ttl` seconds and not redeemed or replaced since can be redeemed exactly while those seconds last |
| `GroupLives.JoinLife` | crates/nemo-server/src/group.rs:255-355 | over any run a redeemed invite reserves a credential that is not live until the first signed admission, which makes it live with its secret, key and target exactly while the invite's seconds last |
| `GroupLives.UploadLife` | crates/nemo-server/src/group.rs:407-512 | over any run an upload succeeds exactly from the live credential that reserved the slot, within its 60 s, 1 h, 24 h or 30 days, with exactly the reserved bytes, and once |
| `GroupLives.DownloadLife` | crates/nemo-server/src/group.rs:433-454 | over any run an uploaded file is what live members of that group get until the slot lapses, and nobody else |
| `GroupLives.StoreInviteExactly` | crates/nemo-server/src/group.rs:227-253 | who may store an invite and what is stored |
| `GroupLives.AcceptExactly` | crates/nemo-server/src/group.rs:255-297 | redeeming uses an invite up; in time, it reserves a credential and opens a pending join |
| `GroupLives.AdmitExactly` | crates/nemo-server/src/group.rs:318-355 | an admission succeeds exactly if signed by a live member for a pending join in time, and makes exactly that credential live |
| `GroupLives.CreateExactly` | crates/nemo-server/src/group.rs:177-224 | a group is founded unless the owner has 64, with one live credential |
| `GroupLives.RefreshExactly` | crates/nemo-server/src/group.rs:369-382 | a live member replaces its own target and nothing else |
| `GroupLives.UploadExactly` | crates/nemo-server/src/group.rs:407-431 | exactly when an upload succeeds, and that only that slot changes |
| `GroupLives.SlotsCount` | crates/nemo-server/src/group.rs:514-520 | a slot counts for its own group while it has not expired |
| `GroupLaws.StreamIsAppendOnly` | crates/nemo-server/src/group.rs:551-591 | numbers are exactly 1..n, the counter n+1, bytes the sum of lengths, and what was appended stays |
| `GroupLaws.FirstUploadWins` | crates/nemo-server/src/group.rs:407-454 | an upload has the reserved size and every later fetch that succeeds returns it |
| `GroupLaws.LiveBytesLapse` | crates/nemo-server/src/group.rs:514-520 | reserved bytes only lapse as time passes |
| `GroupLaws.OwnersWithinCap` | crates/nemo-server/src/group.rs:183-192 | at no moment of any run has an owner more than 64 groups |
| `GroupLaws.StepKeepsOwners` | crates/nemo-server/src/group.rs:183-192 | no operation takes an owner above 64 groups |
| `GroupJournal.StepLag` | crates/nemo-server/src/group.rs:120-156 | after any operation the group tables trail memory by exactly what the journal lists |
| `GroupJournal.FlushFits` | crates/nemo-server/src/pg.rs:167-182 | no insert hits an existing key and every reference is there |
| `GroupJournal.FlushAgrees` | crates/nemo-server/src/pg.rs:167-182 | the flush equals memory in every table, invites up to expired rows, and exactly where they were rewritten |
| `GroupDurability.GroupJournalRefinement` | crates/nemo-server/src/pg.rs:103-115 | over any run with failed appends, failed persists and restarts: never refused, and each commit agrees with memory |
| `GroupDurability.ReloadRestores` | crates/nemo-server/src/pg.rs:930-1068 | gathering the rows of each group and its stream in sequence order gives back exactly the groups and files the tables are a copy of |
| `GroupDurability.GroupReloads` | crates/nemo-server/src/pg.rs:930-1068 | the rows gathered for one group are that group |
| `GroupDurability.StreamReloads` | crates/nemo-server/src/pg.rs:1029-1048 | stream rows taken in ascending order are the stream |
| `GroupDurability.RedeemDriftsExactly` | crates/nemo-server/src/group.rs:255-260 | from any journal over any lagging database: the redeemed invite lingers in the tables exactly when it had expired and no rewrite of its group was pending; the flush is an exact copy exactly when nothing lingers |
| `GroupDurability.CopyUnlessLingering` | crates/nemo-server/src/group.rs:255-260 | a flush is an exact copy exactly when no persisted invite has left memory without its group being marked |
| `GroupDurability.SameStream` | crates/nemo-server/src/pg.rs:1029-1048 | rows read in sequence order rebuild the stream |
| `WriteThrough.UpsertGroups` | crates/nemo-server/src/pg.rs:568-588 | every marked group gets its counters |
| `WriteThrough.UpsertCreds` | crates/nemo-server/src/pg.rs:590-620 | every marked credential memory holds is written, failing exactly if a group is missing |
| `WriteThrough.RewriteInvites` | crates/nemo-server/src/pg.rs:622-649 | each marked group's invites are deleted and written again, failing exactly if rows are to be written for a missing group |
| `WriteThrough.RewritePending` | crates/nemo-server/src/pg.rs:651-682 | each marked group's pending joins are deleted and written again, failing likewise |
| `WriteThrough.ResolveRows` | crates/nemo-server/src/pg.rs:684-705 | journalled stream rows are looked up in live memory |
| `WriteThrough.InsertStream` | crates/nemo-server/src/pg.rs:684-720 | stream rows are inserted one by one, stopping at the first whose key is there or whose group is not |
| `WriteThrough.UpsertFiles` | crates/nemo-server/src/pg.rs:722-748 | every marked slot is written, failing exactly if its group is missing |
| `WriteThrough.PersistGroups` | crates/nemo-server/src/pg.rs:167-182 | the row operations of the group half compute the flush; they stop at the first conflict, and that is exactly when some constraint on the whole flush is violated |
| `WriteThrough.Persist` | crates/nemo-server/src/pg.rs:103-115 | both halves commit together or not at all, and on failure both journals return |
| `Reloading.LoadHome` | crates/nemo-server/src/pg.rs:754-929 | the loading loops, on any tables at all, end in a memory that they load |
| `Reloading.LoadIdentities` | crates/nemo-server/src/pg.rs:801-856 | one pass over the identities fills the directory and the empty mailboxes |
| `Reloading.LoadRows` | crates/nemo-server/src/pg.rs:857-881 | rows read in sequence order fill each mailbox with exactly its rows and one idempotency entry per token, the latest row winning |
| `Reloading.LoadTokens` | crates/nemo-server/src/pg.rs:882-910 | one token row per table row, none twice |
| `Reloading.LoadHost` | crates/nemo-server/src/pg.rs:930-1068 | the loading loops of the group half compute the gathered groups and files |
| `Reloading.Gather` | crates/nemo-server/src/pg.rs:949-1028 | one pass over a table hands every row to its group |
| `Reloading.GatherStream` | crates/nemo-server/src/pg.rs:1029-1048 | rows read in sequence order append to their groups' streams in order |
| `MlsClient.Group.SyncCredentialIds` | crates/nemo-core/src/group.rs:840-858 | ids rebuilt through signature keys are the leaves' own, and announcements for keys that left are dropped |
| `MlsClient.Group.ApplySigningKeyReplace` | crates/nemo-core/src/group.rs:518-534 | an announcement counts exactly if a current leaf key verifies it |
| `MlsClient.Group.CheckUpdate` | crates/nemo-core/src/group.rs:820-838 | same credential id, and a changed key only if announced |
| `MlsClient.Group.Validate` | crates/nemo-core/src/group.rs:798-818 | all leaf updates, the path leaf and all joiners pass |
| `MlsClient.Group.FinishOwnCommit` | crates/nemo-core/src/group.rs:759-774 | the staged commit is merged and its signer taken over |
| `MlsClient.Group.MergeStaged` | crates/nemo-core/src/group.rs:776-793 | a foreign commit is merged and anything staged is dropped |
| `MlsClient.Group.TakeHandshake` | crates/nemo-core/src/group.rs:537-580 | echo merges what was staged; otherwise no external commit, no remove, valid leaves |
| `MlsClient.Group.TakeBundle` | crates/nemo-core/src/group.rs:696-735 | a remove only with a sidecar signed by the committer that names the one removed leaf |
| `MlsClient.Group.StageUpdate` | crates/nemo-core/src/group.rs:583-601 | staged only if nothing is pending |
| `MlsClient.Group.StageRotation` | crates/nemo-core/src/group.rs:606-636 | a key change is staged with the signer it will need |
| `MlsClient.Group.StageAdmission` | crates/nemo-core/src/group.rs:640-667 | the joiner's leaf carries the expected id, which nobody has |
| `MlsClient.Group.StageRemoval` | crates/nemo-core/src/group.rs:670-694 | a leaf with the named credential is removed by a signed bundle |
| `MlsClient.Group.DiscardPending` | crates/nemo-core/src/group.rs:121-127 | dropping a staged commit leaves the shared state alone |
| `MlsAgreement.MembersAgree` | crates/nemo-core/src/group.rs:10-13 | members that read equally far hold the same epoch, leaves, ids and announced keys, whatever each has staged |
| `MlsAgreement.EchoAgreesExactly` | crates/nemo-core/src/group.rs:759-774 | on the echo a member merges what it staged, and everyone else the same exactly when a key change was announced |
| `MlsAgreement.ForeignAgrees` | crates/nemo-core/src/group.rs:776-793 | a foreign object moves a member exactly as any observer, and keeps it sound unless it is removed |
| `MlsEffects.ForeignCommitEffect` | crates/nemo-core/src/group.rs:776-793 | a commit by somebody else is taken exactly if any observer accepts it; what it then does to every leaf, id and announcement; that the answer says whether a staged commit was superseded |
| `MlsEffects.AcceptedIsRightful` | crates/nemo-core/src/group.rs:537-580 | whatever is accepted is by a member of this epoch, with leaves and joiners that may be taken; a handshake removes nobody, a bundle exactly the named leaf with a sidecar signed by the committer |
| `MlsEffects.RightfulIsAccepted` | crates/nemo-core/src/group.rs:696-735 | and whatever is all that is accepted |
| `MlsEffects.OwnEchoEffect` | crates/nemo-core/src/group.rs:759-774 | the echo of an own commit does the same with what was staged, and the member goes on with the staged key |
| `MlsEffects.MergeCommits` | crates/nemo-core/src/group.rs:840-858 | leaf by leaf: updates land, the sender has its path leaf, removed positions are empty or a joiner's, joiners take the leftmost free places, all others stay; ids and announcements are those of the new leaves |
| `MlsEffects.BundleRemovesNamed` | crates/nemo-core/src/group.rs:696-735 | a removal without joiners takes exactly the named credential's leaf out of ids and tree |
| `MlsEffects.OwnRemovalEcho` | crates/nemo-core/src/group.rs:759-774 | so does the echo of an own removal |
| `MlsEffects.StagedTakesEffect` | crates/nemo-core/src/group.rs:583-694 | whatever an honest member stages makes of the tree what was meant, for it and, a key change once announced, for every observer |
| `MlsEffects.StagedOneAtATime` | crates/nemo-core/src/group.rs:752-757 | with a commit waiting nothing is staged, and a refusal changes nothing |
| `MlsEffects.StreamKeepsForm` | crates/nemo-core/src/group.rs:798-838 | whatever is streamed, every leaf has a credential id and names its own signature key, and ids are theirs |
| `MlsEffects.KeyChangesAreAnnounced` | crates/nemo-core/src/group.rs:820-838 | whatever is streamed, a leaf that stays changes its key only to one announced on the stream under the old key |
| `MlsAgreement.StagedIsOwn` | crates/nemo-core/src/group.rs:583-694 | whatever is staged fits the state it was built on and is framed as handed out |
| `MlsAgreement.NextKeeps` | crates/nemo-core/src/group.rs:537-580 | each event under the discipline keeps all members on the observer's state |
| `MlsAgreement.DroppedCommitDiverges` | crates/nemo-core/src/group.rs:121-127 | dropping a commit that was streamed leaves the member behind while all others advance |
| `MlsAgreement.JoinerMissesAnnouncement` | crates/nemo-core/src/group.rs:1128-1133 | a joiner who missed an announcement rejects the key change others accept |
| `MlsAgreement.SurvivorKeepsCredential` | crates/nemo-core/src/group.rs:820-838 | whatever is streamed, a leaf that is never removed keeps its credential id |
| `CborHead.HeadRoundTrip` | crates/nemo-wire/src/cbor.rs:50-66 | reading a written head gives type, argument and rest back |
| `CborHead.HeadIsShortest` | crates/nemo-wire/src/cbor.rs:142-176 | any accepted head is at least as long as the written one, and equally long only if it is it |
| `CborHead.KeyOrderIsByteOrder` | crates/nemo-wire/src/cbor.rs:1-2 | for all 64-bit keys, numeric order is the bytewise order of the encodings |
| `Utf8.DecodeEncode` | crates/nemo-wire/src/cbor.rs:85-93 | every text survives |
| `Utf8.EncodeDecode` | crates/nemo-wire/src/cbor.rs:85-93 | bytes that decode are the one encoding of their text |
| `Cbor.ReadValue` | crates/nemo-wire/src/cbor.rs:76-140 | every value read consumes at least one byte, so reading terminates |
| `Cbor.RoundTripExactly` | crates/nemo-wire/src/cbor.rs:15-140 | reading an encoding followed by anything gives the sorted value and the rest exactly when no map repeats a key, and otherwise a key order error |
| `Cbor.ReadBack` | crates/nemo-wire/src/cbor.rs:76-140 | what is written as it stands reads back exactly when its maps ascend; size guards never interfere |
| `Cbor.CanonStrict` | crates/nemo-wire/src/cbor.rs:38-41 | sorting makes a value decodable exactly when no map repeats a key |
| `Cbor.PrefixFree` | crates/nemo-wire/src/cbor.rs:15-19 | on sorted values the encoding is injective and prefix-free |
| `Cbor.NumberExamples` | crates/nemo-wire/src/cbor.rs:50-66 | numbers of appendix A of RFC 8949 |
| `Cbor.StringExamples` | crates/nemo-wire/src/cbor.rs:21-48 | byte and text strings as in appendix A of RFC 8949 |
| `Cbor.ArrayExample` | crates/nemo-wire/src/cbor.rs:21-48 | array of appendix A of RFC 8949 |
| `Cbor.MapExample` | crates/nemo-wire/src/cbor.rs:21-48 | map of appendix A of RFC 8949 |
| `Utf8.Utf8Examples` | crates/nemo-wire/src/cbor.rs:85-93 | one text of each length class |
| `Cbor.ReadShape` | crates/nemo-wire/src/cbor.rs:76-140 | whatever decodes has ascending maps, and its encoding is no longer than what was read |
| `Cbor.ReencodeNeverGrows` | crates/nemo-wire/src/cbor.rs:68-74 | re-encoding what decodes never grows it, decodes to the same, and is equally long only if identical |
| `CborReading.ReadExtends` | crates/nemo-wire/src/cbor.rs:76-140 | reading looks no further than the value it returns |
| `CborReading.TrailingRefused` | crates/nemo-wire/src/cbor.rs:68-74 | an encoding with anything after it is refused as trailing |
| `CborReading.TruncatedRefused` | crates/nemo-wire/src/cbor.rs:76-140 | an encoding cut short anywhere is refused |
| `CborReading.OnlyTheseItems` | crates/nemo-wire/src/cbor.rs:76-140 | only unsigned numbers, byte strings, texts, arrays and maps are read, told by the top three bits |
| `CborCodec.Writer.WriteHead` | crates/nemo-wire/src/cbor.rs:50-66 | appends the shortest head |
| `CborCodec.Writer.WriteValue` | crates/nemo-wire/src/cbor.rs:21-48 | appends the encoding, sorting a copy of every map |
| `CborCodec.EncodeValue` | crates/nemo-wire/src/cbor.rs:15-19 | the buffer ends up holding the encoding |
| `CborCodec.ReadFrom` | crates/nemo-wire/src/cbor.rs:76-140 | the reader with its loops computes the recursive specification |
| `CborCodec.ReadArray` | crates/nemo-wire/src/cbor.rs:95-109 | element loop |
| `CborCodec.ReadMap` | crates/nemo-wire/src/cbor.rs:111-137 | pair loop with the last key |
| `CborCodec.DecodeBytes` | crates/nemo-wire/src/cbor.rs:68-74 | trailing bytes are refused |
| `CborCodec.SortCommutes` | crates/nemo-wire/src/cbor.rs:38-46 | sorting before or after writing the values is the same |
| `App.EncodedDecodes` | crates/nemo-core/src/app.rs:231-278 | whatever encodes decodes to the same message, for every body and option; encoding succeeds exactly within the limits |
| `App.DecodedReencodes` | crates/nemo-core/src/app.rs:251-278 | whatever decodes to a known kind encodes again and comes back the same |
| `App.NoExposureGetsThrough` | crates/nemo-core/src/app.rs:524-543 | no candidate whose text says `typ host` or `typ srflx`, in any case and as whole words, passes in either direction |
| `App.LimitsInBytes` | crates/nemo-core/src/app.rs:469-492 | a message is written exactly if of a known kind, with text up to 8192, group name up to 128 and reaction up to 32 bytes and no exposing candidate; the refusal says which |
| `App.LimitsOnArrival` | crates/nemo-core/src/app.rs:251-278 | a message of a known kind that is read is within the same limits |
| `App.WireTable` | crates/nemo-core/src/app.rs:231-300 | what the bytes of a written message hold under each field number, for every kind, and nothing else |
| `App.HeaderRequired` | crates/nemo-core/src/app.rs:251-278 | only version 1 is read, with a type, a number and a time |
| `App.UnsignedIntroRefused` | crates/nemo-core/src/app.rs:393-420 | an introduction without session key, recipient or signature is refused |
| `App.UnknownKept` | crates/nemo-core/src/app.rs:251-278 | a message of an unknown kind is read as such, with its header |
| `App.CaseIsNoCover` | crates/nemo-core/src/app.rs:534-543 | case makes no difference to what exposes |
| `App.WordsExpose` | crates/nemo-core/src/app.rs:534-543 | nor do surroundings or the kind of blank between the words |
| `App.BodyBack` | crates/nemo-core/src/app.rs:280-467 | each body's fields parse back to it |
| `App.HeaderBack` | crates/nemo-core/src/app.rs:237-266 | version, type and header fields are found where they were put |
| `Ice.WordsAreText` | crates/nemo-core/src/app.rs:534-543 | adjacent words in the split are exactly such a phrase in the text |
| `Ice.IceTyp` | crates/nemo-core/src/app.rs:534-543 | the word loop finds `typ` followed by the type exactly if they are adjacent |
| `Ice.RejectDirectIce` | crates/nemo-core/src/app.rs:524-532 | a list passes exactly if no candidate is direct |
| `AppCodec.CheckLimits` | crates/nemo-core/src/app.rs:469-492 | byte limits and candidate types, per body |
| `AppCodec.WriteMessage` | crates/nemo-core/src/app.rs:231-249 | the pair list as pushed is the encoded map |
| `AppCodec.DecodeIce` | crates/nemo-core/src/app.rs:515-522 | the loop stops at the first item that is not text |

## Left out

- `HomeDurability.JournalRefinement`: steps are restricted to new capability tokens, acknowledgements that land and memberships of registered identities, because the code does not keep the property otherwise; the lemmas named above say exactly when it does.
- `HomeDurability.ReloadRestores`: covers the tables of the journal, not the `server_identity` row and first-boot initialisation.
- `HomeRun.StepValid`: row numbers, frame counters and byte counts are unbounded; wrap-around at 2^64 is not modelled.
- `HomeServers.HomeServer.Append`: an inner envelope is identified with its padded encoding, and its length is computed from the declared inner length.
- `HomeServers.HomeServer.CheckOwner`: scope and signature checks are one verdict carried by the request; remembered nonces are not persisted, so single use is claimed for one run of the process.
- `HomeServers.HomeServer.GcMailbox`: the list of dropped rows in the journal is a set, because only membership is used.
- `TokenLives.ShareLife`: for a 64-bit clock that does not run backwards, and a token that is not minted again.
- `Replays.PeerRateBound`: for a 64-bit clock that does not run backwards.
- `Thinning.ShareSweepIsInvisible`: is about share tokens; reclaimed contact capabilities can be missed, exactly as `Sweeping.SweepIsInvisible` says. The clock must not run backwards and new tokens must be new.
- `Capabilities.ShareStoresOnce`: capability tokens are assumed never to repeat over the whole run.
- `Pumping.PumpCorrect`: recovery after a one-sided reset over real sockets is not covered; `Pumping.PumpRecovers` and `Trust.PumpCountIsExact` say what happens within the pump from any counters.
- `Delivery.FinishedExactlyOnce`: one client process; a restart that loses the in-memory retry table is not modelled.
- `Delivery.LossNoticeIsExact`: for cursors below 2^64-1, where the saturating comparison is exact.
- `GroupLaws.StepSound`: for file budgets below 2^64-1, because the budget check saturates.
- `GroupHosts.GroupHost.Fan`: sealed copies are the map from credential to target; envelope bytes and the order of a hash map are not modelled.
- `GroupHosts.GroupHost.StoreSignedInvite`: the same signed invite may be stored again after it was redeemed, as in the code; results count stored instances.
- `MlsAgreement.MembersAgree`: for members that start in one state. Members who join by Welcome start without announced keys (`MlsAgreement.JoinerMissesAnnouncement`), and the library layer's shortcut of applying its own commit right after a successful append is not modelled.
- `MlsAgreement.EchoAgreesExactly`: uniqueness of credential ids across leaves is not claimed, since validation does not enforce it for several joiners in one commit.
- `Cbor.RoundTripExactly`: for values whose lengths fit 64 bits; nesting depth is not bounded, so stack exhaustion is not modelled.
- `App.EncodedDecodes`: error messages are reduced to their kind.
- HTTP routing, TLS, WebSocket wake-ups, SOCKS and Tor, TURN issuance and the foreign-function layer: input and output plumbing.
- Real cryptography, libsignal and OpenMLS internals, the encrypted vault and key derivation: foreign libraries.
- Audio and WebRTC calls: floating point and foreign code.
- Inbox display rows, reactions, nicknames, read receipts and the user interfaces: presentation.
- Discovery answers, capability lookups, the read-only lookup of a pending join, padding and the outer and inner envelope formats: easy members.
