# Lanclip: a verified model

Lanclip keeps the clipboards of several machines in step. Each machine runs a
daemon; paired daemons hold one TLS connection to each other, send every local
copy to all connected peers, and write what they receive to the system
clipboard. This project models the state machines behind that in Dafny and
proves what they keep over every run.

`dafny verify dfyconfig.toml` verifies everything.

| file | what it models |
|---|---|
| `Suppression.dfy` | the list that stops a remote write from being sent back: the in-place code, and a ledger that accounts for every entry |
| `Channel.dfy`, `Subsequences.dfy`, `LatestQueue.dfy` | the capacity-1 channels that replace an unsent value, with any number of producers |
| `Engine.dfy`, `Echo.dfy`, `EchoTime.dfy`, `Quiescence.dfy`, `LastValue.dfy` | N daemons as a system of atomic steps; echo conservation, when an echo may get out, termination and absence of deadlock, delivery of the last value |
| `Store.dfy`, `StoreRuns.dfy`, `StoreEffects.dfy` | the trust store with failing saves and roll-back; runs with crashes, restarts and the clock; what each call does for the peer it names |
| `Registry.dfy` | dial exclusion, connection ownership and the registry, for all goroutines of any number of daemons |
| `FixedWindow.dfy`, `RateLimit.dfy`, `RateClock.dfy` | the pairing limiter and the clipboard frame limiter over traces; the pairing limiter by the clock alone |
| `Discovery.dfy` | the bounded cache of discovered peers |
| `Transcript.dfy` | the comparison code read aloud while pairing |
| `Utf8.dfy`, `Json.dfy`, `Messages.dfy`, `Framing.dfy` | the wire format: string escaping, the message object, length-prefixed frames over streams that chunk |
| `Backoff.dfy` | the reconnect delay in 64-bit arithmetic |
| `Wrappers.dfy` | optional values, results and 64-bit integers, used throughout |

Code that changes state in place is a class or a method here, proved against
functions on values; the theorems are about those functions and about runs.
The event loops that several goroutines drive are step systems: each receive,
send, `select` and locked section is one step, and a run is any interleaving.
A step may take in what its goroutine does next without sharing it with another,
such as making an event ID.

Four promises turned out to need a condition. Each is proved exactly, and each has
a lemma with an input that fails without it:

- `done` of a registered connection can be closed: `unregister` closes it before
  it takes the lock (internal/daemon/daemon.go:543-544). It is closed exactly
  while the goroutine is in that window (`Registry.DoneOnlyWhileUnregistering`),
  and the window can be met (`Registry.DoneCanBeClosedWhileRegistered`).
- The back-off delay is min times 2^attempt, at most max, for every attempt
  exactly when the doubling reaches max inside 64 bits; otherwise some attempt
  makes `rand.Int63n` panic (`Backoff.ClosedFormIffFits`,
  `Backoff.PanicsIffOverflows`, `Backoff.LargeLimitsMayNotFit`). Any max up to
  2^62 is safe, so the defaults are.
- A message survives the wire unchanged exactly when its texts are UTF-8, it has
  a type, and its protocol is 1 or left for `Write` to fill in
  (`Framing.RoundTrip`); ill-formed bytes arrive as U+FFFD
  (`Framing.IllFormedByteChanges`).
- A refused pairing attempt changes no later decision exactly when the window over
  all sources is still open; one that finds it over opens a new one, and a burst
  59 seconds later is then judged differently (`RateLimit.RefusalIsFree`,
  `RateLimit.RefusalMatters`, and `RateLimit.RefusalCanMatter` for a trace that
  gets there).

## Model

| member | source | states |
|---|---|---|
| Suppression.PruneKeepsSuffix | internal/sync/suppression.go:47-56 | since expiry dates never decrease along the list, pruning removes a prefix: what stays is a suffix, in order |
| Suppression.AddedBounded | internal/sync/suppression.go:24-33 | after an add the list is still in order of expiry and holds at most 256 entries, the new one last |
| Suppression.ConsumedBounded | internal/sync/suppression.go:34-46 | consuming keeps the order and the bound |
| Suppression.Suppressor.Prune | internal/sync/suppression.go:47-56 | the in-place compaction leaves exactly the unexpired entries, in order |
| Suppression.Suppressor.Add | internal/sync/suppression.go:24-33 | the shift, truncate and append leave the newest unexpired entries, at most 255, then the new one; the ledger records what was added, expired and evicted |
| Suppression.Suppressor.Consume | internal/sync/suppression.go:34-46 | removes exactly the oldest unexpired entry for the content and says whether there was one |
| Suppression.AddRefines | internal/sync/suppression.go:24-33 | an add on the list is an add on the ledger; an entry is written off as expired only past its date, as evicted only with 256 newer adds |
| Suppression.ConsumeRefines | internal/sync/suppression.go:34-46 | a consume on the list spends the oldest live match of the ledger, and reports a match exactly when it spends one |
| Suppression.EveryAddIsAccountedFor | internal/sync/suppression.go:24-56 | after any trace of adds and consumes, per content: adds = consumes that returned true + expired + evicted + still listed, and nothing was written off early |
| Suppression.MatchesIff | internal/sync/suppression.go:34-46 | a content is met if and only if some listed entry for it is not over yet |
| Suppression.AddFates | internal/sync/suppression.go:24-33 | an add writes an entry off only when it is past its date, or when at least 256 newer ones, the new one among them, are still listed; what was written off stays so |
| Suppression.TakeFates | internal/sync/suppression.go:34-46 | a consume writes an entry off only when it is past its date, or spends it when it is of the content asked for |
| LatestQueue.NothingIsReordered | internal/daemon/daemon.go:691-713 | under every interleaving of many producers and the consumer the channel holds at most one value, each producer's values come out in its order, every value put is taken, queued or dropped once, and a value is dropped only for one that had not been put when it was, and that is about to be put or was put since |
| LatestQueue.NewestSurvives | internal/daemon/daemon.go:691-705 | when no producer is inside an enqueue, the last value put is queued or was the last one taken |
| LatestQueue.ProducersNeverStall | internal/daemon/daemon.go:645-666 | a waiting producer means the consumer can step; a sole producer, as localLoop is for a connection's queue, never waits |
| Channel.PutTakesThreeSelects | internal/daemon/daemon.go:645-666 | a producer alone with the consumer is done at once on an empty queue and with its third select on a full one, leaving its value only |
| Engine.StaysWellFormed | internal/daemon/daemon.go:558-730 | every step of every loop is defined on the state the previous steps left: fan-out targets and connection ends stay valid |
| Echo.RunsStaySound | internal/daemon/daemon.go:612-730 | the inductive invariant: at each daemon and for each content, suppression entries match the echoes still queued, owed or in progress, and broadcasts balance against copies and lost entries |
| Echo.EchoBound | internal/daemon/daemon.go:612-643 | in every run, at every daemon and per content, broadcasts (with ignored events and swallowed copies) never exceed user copies plus suppression entries that expired or were evicted |
| Echo.EveryCopyGoesOut | internal/daemon/daemon.go:612-643 | at rest no entry is left over and broadcasts + ignored + swallowed equal copies + lost entries: intentional repeats go out |
| EchoTime.EchoIsSwallowed | internal/daemon/daemon.go:612-624 | if a remote write adds its entry at time T, and localLoop tests the same text before T + 5 s, with fewer than 256 adds since the write's and no test of the text in between, the event ends there and is not broadcast |
| EchoTime.LossIsTimely | internal/daemon/daemon.go:707-729 | in every run an add is lost only at a time at least 5 s after the step that made it, or to a newer add that leaves 256 newer ones listed; it is used up only by a test or a take-back of its own text |
| EchoTime.EchoBoundInTime | internal/sync/suppression.go:24-56 | in every run, at every daemon and per content, broadcasts exceed user copies by at most the remote writes of that content that are 5 s old or followed by 256 more |
| EchoTime.LostIsLapsed | internal/sync/suppression.go:24-56 | what a daemon has lost of a content is what the history of its adds, read off the steps, says expired or was pushed out, and what it lists is the rest that was not used up |
| Quiescence.StepShrinks | internal/daemon/daemon.go:612-730 | every internal step that loses no suppression entry lowers an explicit weight of the whole N-daemon state |
| Quiescence.Quiesces | internal/daemon/daemon.go:612-730 | while users copy nothing, no connection is added and no entry expires or is evicted, the number of internal steps is bounded by the weight of the state they start from, however much time passes |
| Quiescence.NoDeadlock | internal/daemon/daemon.go:645-730 | while any queue or loop of any daemon holds a message, some message can move, also when a write loop has returned on an error while its queue is still being filled, or a reader has |
| LastValue.WritesFollowCopies | internal/daemon/daemon.go:572-730 | with one copying user and a link that stays up, the texts handed to the peer's clipboard are a subsequence of the valid copies |
| LastValue.LastValueArrives | internal/daemon/daemon.go:645-730 | and once nothing can move any more, the last text handed to the peer's clipboard is the last valid copy, whatever was coalesced on the way; unless that write failed, so is the last text the clipboard took |
| LastValue.LastValueArrivesInTime | internal/daemon/daemon.go:612-730 | after the last copy of a burst, a segment that stops only when nothing can move takes at most as many internal steps as the state at that copy weighs, and has then handed the peer's clipboard that copy last |
| LastValue.WorkGoesOn | internal/daemon/daemon.go:612-730 | while the peer's clipboard has not been handed the last valid copy, some message can move |
| LastValue.RunsFile | internal/daemon/daemon.go:707-729 | in every run, at every daemon, what the clipboard took is a subsequence of what it was handed, and ends with the latest finished write unless that one failed |
| LastValue.AcceptedExactly | internal/daemon/daemon.go:619-623 | the copies counted as valid are those of 1 to limit bytes |
| Store.PeerStore.Load | internal/pairing/store.go:51-85 | gives exactly the non-pending peers of the file without their codes and tokens, saves only to drop pending entries or to create the file, and fails as the code does: on a file it cannot read, one it cannot parse, and a save that fails |
| Store.PeerStore.SaveLocked | internal/pairing/store.go:86-126 | the file becomes the peers in memory, or stays as it was |
| Store.PeerStore.PrunePendingLocked | internal/pairing/store.go:357-364 | exactly the expired pending entries go |
| Store.PeerStore.Matching | internal/pairing/store.go:293-307 | one loop of resolveLocked: as many matches as entries meant by the reference, each one of them, for any map order |
| Store.PeerStore.ResolveLocked | internal/pairing/store.go:274-318 | the result is the order-free resolution: exact ID first, else the only entry meant, else the right error |
| Store.ResolvesIffUnambiguous | internal/pairing/store.go:274-318 | a reference gives an entry if and only if it names it: the pending entry of an exact, allowed ID, else the stored one, else the only entry of both maps whose name or ID prefix it is; an ID in both maps counts twice |
| Store.ResolutionFails | internal/pairing/store.go:308-316 | a reference that names no entry is ambiguous when some entry is meant by it, and otherwise matches nothing, with the message for pending peers when only those were asked for |
| Store.PeerStore.PutPending | internal/pairing/store.go:127-152 | all error branches in order, and otherwise the pending entry with its token and date and nothing else changed |
| Store.PeerStore.Approve | internal/pairing/store.go:153-182 | the map updates and the hand-written roll-back amount to: all of the move to trusted and the save, or nothing but pruning |
| Store.PeerStore.Reject | internal/pairing/store.go:183-211 | the same for the move to rejected, from either map |
| Store.PeerStore.Unpair | internal/pairing/store.go:212-233 | the same for removal from both maps, without pruning |
| Store.PeerStore.UpdateName | internal/pairing/store.go:247-270 | the same for a rename; an unchanged name saves nothing |
| Store.PeerStore.Get | internal/pairing/store.go:319-328 | the entry for an ID after pruning, a pending one first |
| Store.PeerStore.List | internal/pairing/store.go:339-355 | every known ID once, with the entry Get gives |
| Store.PeerStore.TrustedFingerprint | internal/pairing/store.go:329-338 | returns an entry that is trusted with the fingerprint exactly when there is one |
| StoreRuns.PairingProposesOwner | internal/daemon/daemon.go:244-258 | both pairing paths only propose an ID that the peer's certificate names, with that certificate's fingerprint |
| StoreRuns.FailureIsAtomic | internal/pairing/store.go:127-270 | a failing mutator leaves the file and both maps as they were, but for expired pending entries |
| StoreRuns.CrashRefinement | internal/pairing/store.go:86-126 | at every point of every operation the file loads to exactly the peers before or exactly the peers after it |
| StoreRuns.CrashLosesNothingElse | internal/pairing/store.go:51-126 | a crash and a restart give the peers from before or after the operation and nothing pending |
| StoreRuns.RunsKeepShape | internal/pairing/store.go:127-270 | over runs with failures, crashes and restarts: no ID is pending and trusted, stored peers are never pending and hold no code or token, pending stays within its cap, and loading the file gives the peers in memory |
| StoreRuns.TrustNeedsApproval | internal/pairing/store.go:153-182 | an ID becomes trusted only by an Approve whose token, fingerprint and code are those of the latest request for it, put less than the TTL before, with no restart and no other successful call about it in between |
| StoreRuns.TrustIsPinned | internal/pairing/store.go:183-270 | a trusted ID keeps its trust and its fingerprint through every operation, failure, crash and restart until a Reject or Unpair of it |
| StoreRuns.RunsKeepOwners | internal/daemon/daemon.go:244-258 | over every run whose requests all passed the checks of one of the two pairing paths, each entry's fingerprint belongs to a certificate issued for that ID |
| StoreRuns.FingerprintNamesOneID | internal/pairing/store.go:329-338 | so no two IDs share a fingerprint, and TrustedFingerprint has one answer for every map order |
| StoreRuns.RunsStayFiled | internal/pairing/store.go:127-270 | over every run from a file in which each entry is filed under its own ID, each entry of both maps stays so: the entry that TrustedFingerprint returns carries the ID under which UpdateName finds it |
| StoreEffects.PruneEffect | internal/pairing/store.go:357-364 | a pending entry stays, unchanged, if and only if it is younger than the TTL |
| StoreEffects.UnpairEffect | internal/pairing/store.go:212-233 | Unpair of a reference that names an ID succeeds if and only if its save does; then that ID is in neither map nor in the file, and every other ID is as it was in all three |
| StoreEffects.RejectEffect | internal/pairing/store.go:183-211 | the same for Reject: the ID is then stored as rejected, with the name and fingerprint of the entry named, and not pending |
| StoreEffects.ApproveEffect | internal/pairing/store.go:153-182 | Approve of a reference that names a pending request succeeds if and only if the token is not empty, token, fingerprint and code are the request's, and the save succeeds; the ID is then trusted with that fingerprint and not pending |
| StoreEffects.UnnamedFails | internal/pairing/store.go:153-233 | a reference that names no entry makes each of the three fail |
| StoreEffects.SettlesIff | internal/pairing/store.go:153-233 | the calls that settle an ID are the successful calls whose reference names it |
| StoreEffects.PutEffect | internal/pairing/store.go:127-152 | each refusal of PutPending happens exactly under its condition; otherwise the request is pending with the new token and date, and peers, file and every other ID are as they were |
| StoreEffects.UpdateNameEffect | internal/pairing/store.go:247-270 | each refusal happens exactly under its condition; otherwise name and date of this peer change, in memory and in the file, and nothing else |
| StoreEffects.LoadEffect | internal/pairing/store.go:64-84 | a peer of the file is kept if and only if it is not pending, with its ID, name, fingerprint, state and date |
| StoreEffects.LoadAnswers | internal/pairing/store.go:51-85 | Load fails exactly on a file it cannot read, one it cannot parse, and a save it needs that fails |
| StoreEffects.RevokedStaysUntrusted | internal/pairing/store.go:153-233 | after a Reject or Unpair of an ID, also one cut off by a crash after the rename, the ID is not trusted in any later state of any run until a successful Approve of it |
| StoreEffects.RequestCanBeApproved | internal/pairing/store.go:127-182 | in every run a request that still stands within its TTL is granted by an Approve of its ID with the token PutPending gave and the request's fingerprint and code, when the save succeeds |
| StoreEffects.OfferIsTakenIff | internal/daemon/daemon.go:241-255 | an offer is taken if and only if it is one, has a valid ID, a name and a nonce, and names the fingerprint of a certificate issued for its ID |
| StoreEffects.AnswerIsTakenIff | internal/daemon/daemon.go:335-350 | an answer must also come from the peer that was wanted, with a fingerprint that starts as announced |
| Registry.Daemon.BeginConnect | internal/daemon/daemon.go:428-436 | claims the ID if and only if no other goroutine holds it |
| Registry.Daemon.Register | internal/daemon/daemon.go:512-541 | installs the connection, marks it connected and names the one it replaced; registering the same one twice changes nothing |
| Registry.Daemon.Unregister | internal/daemon/daemon.go:542-552 | removes the entry and the flag only if the entry is still this connection |
| Registry.DialExclusion | internal/daemon/daemon.go:371-437 | per larger peer ID at most one goroutine is between beginConnect and endConnect, and only it can have that peer's connection registered |
| Registry.ConnectingIffDialled | internal/daemon/daemon.go:371-437 | in every state of every run an ID is marked as connecting if and only if a goroutine of that daemon dials it; so beginConnect grants an ID if and only if none does |
| Registry.BackoffHasOneUser | internal/daemon/daemon.go:379-392 | at no time can two goroutines use one peer's back-off; a failed dial counts one attempt more, an ended session counts from zero again, and no other step changes it |
| Registry.IdleBackoffStays | internal/daemon/daemon.go:406-423 | while no goroutine may use it a peer's back-off keeps its count, and a new one starts at zero |
| Registry.DiallersNeverReplace | internal/daemon/daemon.go:512-530 | on the dialling side register never finds an older connection |
| Registry.RegistryIsConsistent | internal/daemon/daemon.go:499-552 | Connected holds exactly for the IDs in conns, and each entry is a connection of that peer dialled by the smaller ID |
| Registry.SmallerIDDials | internal/daemon/daemon.go:499-502 | whoever dials a connection, neither of its ends is registered unless the smaller of the two IDs dialled it, and each end is registered under the other's ID |
| Registry.DoneOnlyWhileUnregistering | internal/daemon/daemon.go:542-552 | a registered connection has `done` closed exactly while its goroutine is past the close and before the lock of unregister |
| Registry.DoneCanBeClosedWhileRegistered | internal/daemon/daemon.go:542-544 | a run of five steps from an empty daemon ends with `done` of a registered connection closed |
| Registry.ReplacementSurvives | internal/daemon/daemon.go:525-552 | a stale unregister leaves its replacement registered and connected, and every replaced connection is closed or is about to be by its replacement |
| Registry.ReturnedMeansClosed | internal/daemon/daemon.go:503-511 | once handleSync has returned, its end of the socket is closed |
| FixedWindow.TwoWindows | internal/daemon/daemon.go:576-585 | a limiter of cap events per window admits at most twice cap in any interval of that length |
| RateLimit.AttemptsAreLimited | internal/daemon/daemon.go:263-297 | over any trace a half-open minute holds at most 128 accepted attempts, and at most 20 from one source |
| RateLimit.AllowedIffUnderLimits | internal/daemon/daemon.go:280-296 | an attempt is accepted if and only if its source and the total are under their limits; the table never exceeds 128 entries, so the guard at 256 never decides |
| RateClock.AllowedByTheClock | internal/daemon/daemon.go:263-297 | the verdicts told from the trace without a table: an attempt is accepted if and only if fewer than 10 of its source and fewer than 64 in all were accepted since the latest one-minute window began, where a source's window is opened by an accepted attempt of it and the overall window by any attempt |
| RateLimit.RefusalIsFree | internal/daemon/daemon.go:272-292 | after any trace, a refused attempt leaves every decision about every later trace as it would have been if and only if the window over all sources is still open |
| RateLimit.RefusalMatters | internal/daemon/daemon.go:272-274 | a refusal that opens a new window over all sources, and a later trace that is then judged differently |
| RateLimit.RefusalCanMatter | internal/daemon/daemon.go:272-292 | a trace that reaches such a refusal: one attempt by one source, ten by another 59 seconds later, and an eleventh after a minute |
| RateLimit.RefusalChangesNoCount | internal/daemon/daemon.go:281-292 | a refused attempt is not recorded, ends only windows that are over, and repeating it changes nothing |
| RateLimit.PairLimiter.Allow | internal/daemon/daemon.go:270-296 | the map updates do what the trace specification says |
| RateLimit.FrameLimiter.Frame | internal/daemon/daemon.go:577-585 | a frame is admitted if and only if fewer than 30 were admitted in its window, which starts anew with a frame that finds it a second old; otherwise the connection ends |
| RateLimit.FrameLimiter.FramesAreLimited | internal/daemon/daemon.go:576-586 | a connection enqueues at most 60 clipboard frames in any second |
| Discovery.CacheIsMostRecent | internal/discovery/discovery.go:249-294 | after any trace of observations and reads the table holds latest, live sightings, at most 256; a live peer is left out only when the table is full of peers seen no earlier |
| Discovery.CacheHolds | internal/discovery/discovery.go:249-294 | for every peer: if it is in the table, it is as last observed, less than 45 s ago; if it was observed since and is missing, the table holds 256 peers and each was observed no earlier |
| Discovery.Cache.PruneLocked | internal/discovery/discovery.go:287-294 | exactly the peers unseen for 45 seconds go |
| Discovery.Cache.OldestID | internal/discovery/discovery.go:252-258 | the loop over the map finds an entry seen longest ago, for any map order |
| Discovery.Cache.PutPeerLocked | internal/discovery/discovery.go:249-262 | records the observation, evicting an oldest peer only when a new one meets a full table |
| Discovery.Cache.Peers | internal/discovery/discovery.go:263-273 | every live peer once |
| Transcript.ComparisonCode | internal/pairing/store.go:368-380 | the swap, join, hash and word loop give the six words of the digest of the ordered transcript |
| Transcript.CodeByPosition | internal/pairing/store.go:375-379 | word k of the code is the word that byte k of the digest names modulo 46, with single spaces between |
| Transcript.CodeShowsSixResidues | internal/pairing/store.go:375-379 | two codes are equal if and only if the six digest bytes agree modulo 46 |
| Transcript.HashedLayout | internal/pairing/store.go:369-374 | what is hashed is the lexicographically smaller half, a NUL and the other half |
| Transcript.CodeIsSymmetric | internal/pairing/store.go:368-380 | swapping the two sides changes nothing, for all strings, also when both halves join to the same text |
| Transcript.TranscriptIsThePair | internal/pairing/store.go:369-374 | for NUL-free fields two hashed transcripts are equal if and only if they are of the same unordered pair of (ID, fingerprint, nonce) |
| Transcript.NulBlursFields | internal/pairing/store.go:371-374 | without NUL-free fields that fails: two different parties with one transcript |
| Transcript.BothEndsStoreTheSameCode | internal/daemon/daemon.go:254-350 | when both ends of a session accept and each got what the other sent, they store the same code, each under the other's ID and fingerprint |
| Transcript.SameTranscriptMeansSameView | internal/daemon/daemon.go:254-350 | two ends that hash the same transcript saw each other as they are |
| Utf8.CoercedKeepsValid | internal/protocol/protocol.go:79-81 | replacing ill-formed bytes changes a text exactly when it is not UTF-8 |
| Utf8.ValidIffEncoding | internal/protocol/protocol.go:79-81 | a text is UTF-8 if and only if it is the concatenated encoding of Unicode scalar values |
| Json.StringReadsBack | internal/protocol/protocol.go:37-83 | any byte string written as a JSON string is read back up to its ill-formed bytes, with the text after it untouched |
| Json.EscapeIsBounded | internal/protocol/protocol.go:14-17 | escaping makes a text at most six times as long |
| Json.EscapeBoundIsTight | internal/protocol/protocol.go:14-17 | and control characters do take six bytes each |
| Json.EscapeIsPlain | internal/protocol/protocol.go:37-41 | what is written holds no control character and no markup |
| Json.UnitsRead | internal/protocol/protocol.go:82-84 | every Unicode scalar value written as one escaped code unit or a surrogate pair is read as its UTF-8 encoding |
| Json.LoneSurrogate | internal/protocol/protocol.go:82-84 | half a surrogate pair is read as U+FFFD |
| Json.ShortEscapes | internal/protocol/protocol.go:82-84 | which two-character escapes there are and what they mean |
| Messages.ObjectReadsBack | internal/protocol/protocol.go:19-40 | every message object, whatever its fields hold and whichever are omitted, is read back with ill-formed bytes replaced |
| Messages.MarshalLayout | internal/protocol/protocol.go:19-41 | the object written, member by member: type and protocol always, then each field that is not empty, under its name and in order |
| Messages.MarshalIsBounded | internal/protocol/protocol.go:14-41 | an object is well-formed UTF-8 of at most six bytes per byte it holds plus 800 |
| Framing.WriteAll | internal/protocol/protocol.go:52-64 | through any short-writing stream: it fails when the stream reports an error or a wrong count, and as it did; without an error all bytes went out once and in order, with one a prefix did |
| Framing.Write | internal/protocol/protocol.go:33-50 | a message over the limit writes nothing; otherwise exactly its frame went out, or the stream failed and a prefix of it did |
| Framing.ReadFull | internal/protocol/protocol.go:66-78 | reads exactly n bytes however they are chunked, or fails when there are fewer |
| Framing.Read | internal/protocol/protocol.go:66-93 | the result and the bytes left unread are those of the decoder on the whole stream: every check in order, independent of chunking |
| Framing.OversizedIsRefused | internal/protocol/protocol.go:71-74 | a frame whose first four bytes, read big-endian, are zero or more than the limit is refused after exactly those four bytes, whatever follows |
| Framing.ShortIsRefused | internal/protocol/protocol.go:67-78 | a stream that ends before the length or the body it announces is a read error |
| Framing.BodyIsJudged | internal/protocol/protocol.go:75-92 | a body within the limit is consumed with its length and answered by the first test it fails: UTF-8, JSON, version, type |
| Framing.OkIsBounded | internal/protocol/protocol.go:66-93 | a Read that returns a message took at most four bytes and the limit, and what it took was well-formed |
| Framing.FrameAnnounces | internal/protocol/protocol.go:44-50 | a frame below 2^32 bytes announces its body and holds nothing else |
| Framing.HeaderIsExact | internal/protocol/protocol.go:44-71 | the four header bytes give back the length if and only if it has 32 bits |
| Framing.FrameReadsBack | internal/protocol/protocol.go:66-93 | one Read of a written frame consumes exactly four bytes and the body |
| Framing.RoundTrip | internal/protocol/protocol.go:33-93 | what Write sends of a message comes back unchanged if and only if its fields are UTF-8, it has a type and its protocol is 1 or left to Write |
| Framing.StreamReadsBack | internal/protocol/protocol.go:33-93 | the messages of any sequence that Write sends come back as that same sequence, leaving what follows, if and only if each of them would come back alone |
| Framing.FramesReadBack | internal/protocol/protocol.go:66-93 | any sequence of frames is read back one by one, each with the result its message deserves |
| Framing.IllFormedByteChanges | internal/protocol/protocol.go:37-83 | a message whose text is the byte 0xFF arrives with U+FFFD instead |
| Framing.Transfer | internal/protocol/protocol.go:33-93 | messages written through a stream that takes pieces and read through one that delivers pieces: without a write error the other end reads that same sequence if and only if each message would come back alone |
| Framing.CutFrameFails | internal/protocol/protocol.go:68-78 | a frame cut off anywhere is an error, never another message |
| Framing.LargestTextFits | internal/daemon/daemon.go:621-631 | a text of 2^20 bytes always fits the default frame, with 128 KiB to spare for the other fields |
| Framing.SixTimesIsTooSmall | internal/protocol/protocol.go:14-17 | a limit of six times the text limit would reject some valid text |
| Backoff.Backoff.Next | internal/transport/backoff.go:14-32 | the loop computes the clamped, wrapped doubling for this attempt, takes an eighth off, adds what the random source draws below a quarter and one, counts the attempt and keeps the bounds |
| Backoff.Backoff.Reset | internal/transport/backoff.go:33-33 | the next delay starts over, with the same bounds |
| Backoff.ClosedFormIffFits | internal/transport/backoff.go:22-28 | for positive min and max the delay is min times 2^attempt, at most max, for every attempt if and only if the doubling fits 64 bits |
| Backoff.PanicsIffOverflows | internal/transport/backoff.go:30-31 | some attempt has no valid range for the random draw if and only if the doubling does not fit |
| Backoff.LargeLimitsMayNotFit | internal/transport/backoff.go:22-31 | limits for which the doubling does not fit and some attempt panics |
| Backoff.DoublesExactly | internal/transport/backoff.go:22-25 | intermediate delays are positive and below twice max when min is at most max |
| Backoff.SmallLimitsFit | internal/transport/backoff.go:22-25 | every max up to 2^62 fits |
| Backoff.WaitsStayNear | internal/transport/backoff.go:30-31 | every wait r for a delay d has 7d <= 8r <= 9d+7 if and only if the longest one fits 64 bits |
| Backoff.WaitsAreExactly | internal/transport/backoff.go:30-31 | where the longest wait fits, the waits for a delay d are exactly the values from d - d/8 to d - d/8 + d/4 |
| Backoff.JitterIsADraw | internal/transport/backoff.go:30-31 | the outcomes for a delay are those of the random source below a quarter of it and one, and each of them is possible |
| Backoff.DelaysGrow | internal/transport/backoff.go:22-28 | delays double from min until they reach max and stay there |
| Backoff.DefaultWaits | internal/transport/backoff.go:16-31 | with the defaults every wait is between 218.75 ms and 11.25 s; the delay doubles from 250 ms, and from the seventh attempt on it is 10 s |

## Left out

Assumptions about what surrounds the code:

- SHA-256 and certificate fingerprints are taken to be free of collisions: a content stands for its hash in the suppression list, a fingerprint determines the certificate's common name, and the transcript stands for its digest in what two ends compare.
- Each successful clipboard write causes at most one watcher event with the same bytes, and a failed one none. The model starts at the order of events on the watcher's channel; the Linux adapter does not promise an order before that.
- The suppressor, the limiters and the discovery cache see a clock that does not run backwards in the order in which their lock is taken; the pairing limiter reads it just before its lock.
- Tokens and nonces are parameters of the calls, the random source of a back-off draws any value in range, and a save that fails leaves the old file while one that succeeds has renamed the new one into place. Permissions, syncing and the temporary file are not modelled.

What the model does not cover:

- The event loops are a step system over values and not methods of a class, because their steps interleave with those of other goroutines; blocking is a step that is not enabled. Event IDs, byte and time statistics and error records are not part of it.
- The frame rate limit is proved on its own. In the engine a peer that exceeds it is a reader that ends; the last-value theorem assumes that the connection and its two loops stay up, that no second connection to the same peer is opened, that nothing expires, that the sender's limit on text size is no larger than the receiver's, and that making an event ID does not fail.
- In the engine a message reaches the other end with the bytes it had. Text that is not UTF-8 would arrive with U+FFFD in it, as the wire format shows.
- Any holder of a certificate may dial in the registry; what its own daemon checks first is left to the accepting side. A daemon that its own store trusts can also connect to itself, which `Registry.SmallerIDDials` allows for.
- The check `connected` before `beginConnect` is dropped from the registry, which only adds behaviours; device IDs are represented by their place in lexicographic order; a socket may time out or close at any step.
- Shutdown, ping and pong, logging, status and the control socket.
- TLS, X.509 and Ed25519, mDNS browsing, addresses, interface and DNS lookup, the native clipboard adapters.
- Trimming, case folding, name normalisation and the UUID check are arbitrary functions of a configuration. The order of `List` and `Peers` by name is left out; so is `Find`, which takes any matching peer.
- Grouping of IPv6 sources by network before the pairing limiter: the limiter sees a source key.
- JSON beyond what the encoder writes: white space, nested values, unknown and repeated members, case-insensitive keys. The frame theorems hold for every decoder that agrees with the model on the objects it reads. A stream that fails is one that ends there; a read that returns no bytes and no error does not occur.
- Transcript.TranscriptIsThePair: the fields are NUL-free; `Transcript.NulBlursFields` shows why.
- Backoff.Backoff.Next: an attempt counter beyond 64 bits wraps around, as in the program.
