# Verified models of the netplay server's and clients' state machines

Dafny 4.11 models of the stateful machinery around the rollback engine, with proofs about whole
runs of it. `dafny verify dfyconfig.toml` checks everything.

| files | what they model |
|---|---|
| `Chunks`, `SessionStore`, `AppendLock` | the session-log append on the server: dedupe by seq, chunk splitting, the byte cap, the reference-counted lock |
| `SessionProtocol`, `SessionLoss`, `SessionOrder`, `SessionKeeps`, `SessionExample` | client rings, a network that loses, duplicates and reorders, and that server, interleaved at every await; what an append stores of any payload at all |
| `RateLimit` | the rolling-window limiter with its lazy pruning, cleanup and tracked-key cap |
| `Flags`, `FlagTags`, `Retention`, `RetentionRun` | classification of log lines, merging of flag reasons, two-phase deletion; which messages flag a match and when its row expires, from the events alone |
| `AudioRing`, `AudioRun` | the two audio rings as one drop-oldest queue, and that queue over whole runs |
| `StateCache`, `RedisCache`, `RedisLru` | the save-state cache, in memory and in Redis, and that both drop what was longest untouched |
| `FakePeer`, `FakePeerRun`, `FakePeerTiming` | the synthetic peer's scheduler and its lossy network; its pace and its packets' arrival |
| `Desync`, `DesyncRun`, `DesyncFlags` | the desync detector's matching and flag deduplication |
| `Timeline` | the rollback instrument's reducer |
| `Basics`, `Wrappers` | positions on a ring, extrema, set sizes; the option type |

Code that changes state step by step is a class or a method with loops, proved equal to a function
of the old state; lemmas then say what that function, and every run of it, guarantees. Values the
model does not compute (JSON lengths, field hashes, HUD counters, the clock, random choices) are
parameters, and the statements hold for all of them. Clocks never go back. Times and audio samples
are reals.

Where the code does not do what its own text promises, the model follows the code and a lemma names
the failing input:

- "Exactly once" needs an epoch's appends to be contiguous: a late flush from an older epoch is
  stored again (`SessionOrder.InterleavedEpochsDuplicate`). Other epochs before or after do no harm;
  `SessionOrder.StoredAgainIff` says exactly when an append repeats a stored entry.
- "The client resends unacked entries" does not make up for a gap: an append acks the whole of its
  payload, so entries between the stored position and the payload's start are acked unstored, and
  refused while the row stays in that epoch (`SessionOrder.GapIsAcked`, and a whole run in
  `SessionExample.AckedEntryLost`). `SessionLoss.LosesIff` and
  `SessionLoss.NoGapIff` give the exact condition on each append, `SessionProtocol.NoAckedEntryLost`
  that acked entries are missing for no other reason, and `SessionLoss.LossNeedsGivingUp` that
  someone let them go before: they were overwritten in the ring unacked, left out of a keepalive
  body, or trimmed by the upload handler.
- The splitter counts a separator too many per chunk, so two entries that fit one chunk exactly get
  two (`Chunks.TwoBytesShort`). The split is still the smallest if no group is closed although the
  next entry's JSON fits it (`Chunks.NeverEarlyIsFewest`), not if all of the next group would have
  fitted (`Chunks.EarlyCloseCosts`), and exactly unless that when only the last group was opened
  early (`Chunks.LastEarlyIff`).
- At the very instant of a cleanup the limiter admits a call the full log would refuse
  (`RateLimit.CleanupInstantForgets`); `RateLimit.DiffersIff` says exactly when.
- A flag protects a match unless it was resolved before or the flag is a capped automatic one;
  `Retention.FlagHoldsIff` gives the exact times.
- With concurrent callers the Redis cache can lose the index entry of a live blob
  (`RedisCache.StoredMeanwhileSlips`, in a run in `RedisCache.SlipsInARun`); without a put between a
  deletion of blobs and that of their index entries it cannot (`RedisCache.NothingSlips`).
- The first 59 frames raise no field flag, because an unflagged field counts as flagged at frame -1
  (`DesyncFlags.NoFieldFlagBefore59`).

## Model

| member | source | states |
|---|---|---|
| Chunks.MaxSeqIsMax | server/src/db.py:288-303 | the position after a flush is the largest usable seq past the old one, or the old one |
| Chunks.FreshMembers | server/src/db.py:288-303 | an entry is kept if and only if it is a dict of the flush, unless its seq is an integer in [0, 2^53) at or below the position |
| Chunks.FreshCounts | server/src/db.py:288-303 | and it is kept as often as it was sent |
| Chunks.EntriesPast | server/src/db.py:288-303 | the loop returns exactly those entries in order, and that position |
| Chunks.SplitIsSplit | server/src/db.py:332-349 | the groups are a lossless in-order partition into non-empty groups, each a singleton or within the limit |
| Chunks.SplitIsFewest | server/src/db.py:332-349 | no partition within the limit has fewer groups, and among the smallest none has a shorter last group |
| Chunks.FewestJsonGroupsIff | server/src/db.py:332-349 | measured by the JSON text itself, the split is a smallest one if and only if two more bytes would not save a group |
| Chunks.NeverEarlyIsFewest | server/src/db.py:340-346 | if no group is closed at an entry whose JSON still fits it, the split is a smallest one |
| Chunks.EarlyCloseCosts | server/src/db.py:340-346 | if a group was closed although all of the next one's JSON fits it, it is not |
| Chunks.LastEarlyIff | server/src/db.py:340-348 | if at most the last group was opened early, the split is a smallest one if and only if the last two do not fit one |
| Chunks.TwoBytesShort | server/src/db.py:340-346 | two entries whose JSON is exactly the limit are split in two |
| Chunks.SplitEntries | server/src/db.py:332-349 | the loop computes that split, so it has both properties |
| Chunks.NewChunksHold | server/src/db.py:306-329 | the inserted rows hold exactly the new entries, in order, under the flush's epoch |
| Chunks.RowBounds | server/src/db.py:313-326 | a row's first_seq is its least usable seq, its last_seq the greatest, or both the mark before it, and its size its JSON's |
| Chunks.DropOldestIsLongestFit | server/src/db.py:365-385 | the cap DELETE keeps the longest suffix whose total fits the cap |
| SessionStore.GroupRows | server/src/db.py:313-326 | the loop builds those rows and sums their sizes |
| SessionStore.AppendMeaning | server/src/db.py:223-285 | one append inserts exactly the payload's entries past the position it is deduped against, acks the stored position, keeps log and audit apart, and an audit without epoch changes nothing |
| SessionStore.FreshIsInserted | server/src/db.py:239-248 | every entry of a flush past its position ends up in an inserted chunk of its epoch |
| SessionStore.AppendKeepsCapped | server/src/db.py:306-385 | an append keeps the stored chunks the longest suffix, within the cap, of all chunks ever inserted |
| SessionStore.CapIsOneShot | server/src/db.py:306-385 | after any run of flushes capping each time equals capping the whole history once; the total never exceeds the cap and nothing is deleted while the history fits |
| SessionStore.ReadEntries | server/src/db.py:408-419 | a reader gets the stored entries of a kind in insertion order |
| SessionStore.Database.StoredChunkBytes | server/src/db.py:352-362 | the sum of the stored sizes of a kind |
| SessionStore.Database.ChunkStatements | server/src/db.py:306-329 | the INSERTs of the new rows, and the cap DELETE exactly when stored and new bytes overflow the cap |
| SessionStore.Database.AppendSessionLogLocked | server/src/db.py:223-285 | the whole new state and ack of an append, whose meaning the lemmas above give |
| SessionKeeps.InsertedIff | server/src/db.py:223-303 | an append inserts each entry as often as it was sent, under the payload's epoch, except those with a seq in [0, 2^53) at or below the position stored for that epoch, or for any if the payload names none |
| SessionKeeps.InsertedInOrder | server/src/db.py:288-303 | and in the order they were sent |
| SessionKeeps.UnnumberedKept | server/src/db.py:114-128 | over any appends an entry without a usable seq is in its epoch's chunks as often as it was sent under it |
| SessionKeeps.ServerKeepsUnnumbered | server/src/db.py:206-303 | and on the server, however concurrent flushes interleave |
| SessionKeeps.PositionNeverFalls | server/src/db.py:258-266 | however stale the reads, the upsert never lowers the position of an epoch |
| AppendLock.RunKeepsInv | server/src/db.py:131-220 | every interleaving keeps the lock, count and read invariants |
| AppendLock.MutualExclusion | server/src/db.py:153-220 | at most one appender in the body; the count is running plus waiting, at most 2; the lock entry exists exactly while it is positive |
| AppendLock.TurnedAwayIff | server/src/db.py:153-159 | a flush is turned away if and only if two are pending, and then nothing changes |
| AppendLock.InterleavingsAreSerial | server/src/db.py:203-220 | under every interleaving the store is that of the committed flushes one after the other, capped |
| AppendLock.AckIsSerial | server/src/db.py:216-285 | and each ack is the one the flush would get alone at its place in that order |
| AppendLock.FailureGivesBack | server/src/db.py:215-221 | an append that raises stores nothing and gives its place and its lock back |
| SessionProtocol.AppendIsSafe | server/src/db.py:234-285 | after an append under a ring's epoch every entry up to the new position is inserted, or moved past by a gap, or (a second account) was let go on the way |
| SessionProtocol.RunKeepsInv | server/src/db.py:178-285 | every ring, message, running append, answer and row of every run carries that evidence |
| SessionProtocol.NoAckedEntryLost | server/src/db.py:178-285 | whatever the network and the epochs do, an acked entry is in a chunk inserted under its epoch if and only if no append's gap has lost it |
| SessionLoss.LosesIff | server/src/db.py:234-240 | in any run an append loses an entry if and only if it lies between the position and the start of the payload and is not stored |
| SessionLoss.AppendHoldsIff | server/src/db.py:234-285 | with everything up to the position held, it is so for the new position if and only if what lies before the payload's start is held |
| SessionLoss.NoGapIff | server/src/db.py:234-285 | while the row is in the payload's epoch an append loses nothing if and only if its payload starts no later than last_seq + 1 |
| SessionLoss.NoGapAfterReset | server/src/db.py:231-236 | after another epoch it loses nothing if and only if everything before its payload's start is held |
| SessionLoss.LossNeedsGivingUp | server/src/db.py:178-206 | only entries that were overwritten unacked, left out of a keepalive body or trimmed are ever lost |
| SessionLoss.StoresAgainIff | server/src/db.py:288-303 | a held entry is stored again if and only if the payload carries it past the position |
| SessionOrder.AtMostOnceInOrder | server/src/db.py:189-248 | while no other epoch's append comes between an epoch's own, the entries inserted under it are the ring's own, strictly increasing, up to the position while the row is in it |
| SessionOrder.ExactlyOnceInOrder | server/src/db.py:189-285 | and up to the last of them exactly the lost ones are missing; if none is lost they are entries 0, 1, 2 and so on, every acked one included, to last_seq while the row is in the epoch, and a reader gets a tail of them; log and audit each on their own |
| SessionOrder.SoleEpochExactlyOnce | server/src/db.py:234-248 | when the epoch is the only one and nothing is lost, all that is ever inserted is the ring's entries 0, 1, 2 and so on, every acked one included |
| SessionOrder.StoredAgainIff | server/src/db.py:231-248 | as long as an epoch's appends are contiguous, one stores a stored entry again if and only if the row has been in another epoch since and the payload carries a stored entry |
| SessionOrder.InterleavedEpochsDuplicate | server/src/db.py:231-236 | epochs a, b, a store the same entry again |
| SessionOrder.GapIsAcked | server/src/db.py:288-303 | a flush that starts past an unstored entry is acked past it, and the entry is refused if it comes next |
| SessionExample.AckedEntryLost | server/src/db.py:234-285 | a run from nothing in which an acked entry is in no chunk: a keepalive body that leaves out the older of two entries |
| RateLimit.Limiter.CheckKey | server/src/ratelimit.py:231-251 | the check's whole effect: prune, count, admit or refuse, or refuse a new key at the cap |
| RateLimit.Limiter.Cleanup | server/src/ratelimit.py:273-300 | the cleanup's whole effect, with the eviction left open |
| RateLimit.RunKeepsInv | server/src/ratelimit.py:231-300 | every deque stays a tail of the admitted log, lacking only what no later check counts |
| RateLimit.WindowBound | server/src/ratelimit.py:238-251 | over every run no window (x, x + W] of a key and event holds more than N admitted calls |
| RateLimit.DecisionIsNaive | server/src/ratelimit.py:231-251 | apart from the key cap a check later than the last cleanup decides as the count over the full log |
| RateLimit.DecisionIsExact | server/src/ratelimit.py:231-287 | at every instant a check counts the admitted times of its window that the last cleanup has not forgotten |
| RateLimit.DiffersIff | server/src/ratelimit.py:238-283 | a check differs from the full log's count if and only if it comes at the last cleanup's instant, its event has the longest window, and the calls exactly one window old decide |
| RateLimit.CleanupInstantForgets | server/src/ratelimit.py:273-283 | a run of the server's own table in which it happens: five feedback calls, and an hour later a cleanup and a sixth |
| RateLimit.EvictionUnreachable | server/src/ratelimit.py:236-300 | no run tracks more than 10000 keys, so no cleanup evicts |
| Flags.ClassifyEntries | server/src/retention.py:44-85 | the loops find, per signal, how many lines match it and their earliest frame, storms counted per slot |
| FlagTags.ClassIs | server/src/retention.py:58-69 | a message counts by its first word, after an optional relay prefix and up to its colons: only the eight listed words, words beginning with FATAL or RB-INVARIANT-, and RB-CHECK with MISMATCH are signals |
| FlagTags.FoundIff | server/src/retention.py:44-85 | a signal has a reason if and only if some line shows it, with the number of lines that do, the first one's slot and the earliest of their frames; an out-of-range input does when its slot has twenty |
| Flags.Scan | server/src/retention.py:52-69 | the first loop counts the plain signals and groups out-of-range inputs by slot |
| Flags.CountSlots | server/src/retention.py:70-73 | the second adds the slots at or over the storm threshold |
| Flags.MergeReasons | server/src/db.py:563-573 | the merge loop |
| Flags.MergeIsJoin | server/src/db.py:563-573 | merging takes the larger count and the earlier frame of each signal |
| Flags.MoreLinesMatchMore | server/src/retention.py:44-85 | more lines never lower a count nor make an earliest frame later, the storm threshold included |
| Flags.OrderDoesNotMatter | server/src/retention.py:44-85 | counts and earliest frames depend only on the multiset of lines |
| Flags.ReclassifyingIsHarmless | server/src/match_rotation.py:286-303 | merging the result of a part of the log with that of the whole, in either order, is merging the whole |
| Flags.MergeTwiceIsOnce | server/src/db.py:563-573 | merging the same reasons again changes nothing |
| Retention.Database.FlagMatchLocked | server/src/db.py:552-586 | a flag's whole effect on the row, capped or not, and none on a tombstoned match |
| Retention.Database.MarkExpired | server/src/retention.py:130-138 | of the selected rows exactly those past their deadline at their own UPDATE, by its own clock, are tombstoned; the deadline is by tier the end or start, the resolve, or the last flag, plus its window |
| Retention.Database.SelectTombstoned | server/src/retention.py:147-149 | the oldest tombstones, at most 200 |
| Retention.Database.FinishDeletes | server/src/retention.py:141-185 | of that batch exactly the matches that do not fail lose their blobs and rows, and are counted |
| Retention.DeletedLeavesNothing | server/src/retention.py:141-185 | over every run with interruptions anywhere, a match whose retention row is gone has no row and no blob left |
| Retention.TwoPhases | server/src/retention.py:118-185 | a tombstone is set only on a row expired then, and never taken back; a row goes only tombstoned, after its blobs, with its other rows in one step |
| Retention.FlagProtects | server/src/retention.py:118-138 | an uncapped flag on an unresolved match keeps it for the stale window through any sweep unless it is resolved |
| Retention.TombstonedIff | server/src/retention.py:94-138 | for each tier, the field and window that decide whether a sweep tombstones a match |
| RetentionRun.ExpiresIff | server/src/retention.py:87-138 | over every run, a sweep tombstones a match if and only if its window has passed since its registration, its end, its last flag or its last resolve, whichever counts; a flag that is neither renewed nor resolved does expire |
| RetentionRun.FlagIsRecorded | server/src/db.py:552-586 | over every run, a row has every signal any flag reported, with at least its count and no later a first frame, capped or not |
| RetentionRun.CappedIff | server/src/db.py:574-580 | over every run a row is marked capped if and only if an automatic flag found the budget spent while it was not flagged |
| RetentionRun.TombstonedOnlyShrinks | server/src/retention.py:118-124 | from its tombstone on a match takes no upload and no flag |
| Retention.FlagHoldsIff | server/src/db.py:574-586 | a flagged row survives the stale window if and only if it is not capped and unresolved, or its normal window is that long |
| Retention.BatchIsPending | server/src/retention.py:147-149 | while fewer than 200 keep failing, every batch holds a match that does not and is at least as old as any left out |
| Retention.EveryOtherMatchFinishes | server/src/retention.py:141-185 | over any run, sweeps interrupted anywhere, in which fewer than 200 matches ever fail, every other match tombstoned before now is finished once as many passes have ended as there are matches ahead of it, itself included, and the one under way |
| Retention.FinishIsRun | server/src/retention.py:147-185 | an uninterrupted finish_deletes, as steps of the sweep, leaves the rows that the loop above does |
| AudioRing.Worklet.constructor | web/static/audio-worklet-processor.js:8-32 | an empty ring with the two sizes for the rate |
| AudioRing.Worklet.OnMessage | web/static/audio-worklet-processor.js:34-48 | the queue becomes the newest samples of the old queue and the message, also for messages longer than the ring |
| AudioRing.Worklet.BleedOff | web/static/audio-worklet-processor.js:63-68 | the bleed drops whole pairs from the front toward the target, at most 32 samples |
| AudioRing.Worklet.Process | web/static/audio-worklet-processor.js:50-82 | the outputs are the queue's next pairs in order, then silence, and the rest stays queued |
| AudioRing.Fallback.Feed | web/static/kn-audio.js:308-321 | dropping pair by pair before writing makes the same queue |
| AudioRing.Fallback.OnAudioProcess | web/static/kn-audio.js:158-173 | and reading it plays the same pairs |
| AudioRing.LiveDrop | web/static/audio-worklet-processor.js:42-47 | moving the read position on drops the oldest live cells |
| AudioRing.LivePush | web/static/audio-worklet-processor.js:38-39 | a write at the write position appends to the live cells |
| AudioRing.NewestTwice | web/static/audio-worklet-processor.js:34-48 | several messages in a quantum are one |
| AudioRun.NothingUnaccounted | web/static/audio-worklet-processor.js:34-82 | over every run the queue is what was pushed last, and pushed = played + bled + overflowed + queued |
| AudioRun.ParityNeverBreaks | web/static/audio-worklet-processor.js:50-82 | with whole-pair messages every pair played is a pair pushed, in order, none twice |
| AudioRun.BacklogIsItsSize | web/static/audio-worklet-processor.js:34-82 | the backlog after a message and a quantum, as a number |
| AudioRun.BacklogIsAfter | web/static/audio-worklet-processor.js:34-82 | and after any number of them in turn, from any state a ring reaches |
| AudioRun.LatencyConverges | web/static/audio-worklet-processor.js:14-29 | from any state a ring reaches, if every quantum brings at most 2F + 32 - d samples, k quanta leave at most max(c - kd, target) queued |
| AudioRun.PastTheCapItGrows | web/static/audio-worklet-processor.js:54-68 | past 2F + 32 the backlog grows by the excess a quantum until the ring is full, so the bound is sharp |
| StateCache.LocalCache.Get | server/src/state_cache.py:70-73 | a hit moves the entry to the end and returns it |
| StateCache.LocalCache.Put | server/src/state_cache.py:104-113 | a put moves or appends the entry, dropping the first of fifty |
| StateCache.StepRefines | server/src/state_cache.py:70-113 | one operation answers as the history-based specification and keeps representing it |
| StateCache.LocalIsLru | server/src/state_cache.py:58-113 | over every run a key is served, with its last put, exactly until fifty other keys were touched since its last touch; never more than fifty are held |
| RedisCache.Redis.Get | server/src/state_cache.py:60-69 | a get's whole effect wherever the connection is lost |
| RedisCache.Redis.Lowest | server/src/state_cache.py:91-93 | the n members with the lowest scores |
| RedisCache.Redis.Put | server/src/state_cache.py:82-103 | a put's whole effect wherever the connection is lost |
| RedisCache.GetAlone | server/src/state_cache.py:60-66 | a get's steps in the interleaved model, alone, do what Redis.Get does |
| RedisCache.PutAloneFits | server/src/state_cache.py:82-91 | and a put's what Redis.Put does, with room for its key |
| RedisCache.PutAloneEvicts | server/src/state_cache.py:82-97 | and without |
| RedisCache.PutTrims | server/src/state_cache.py:87-97 | a put leaves no index entry untouched for an hour and drops only those and what it evicts |
| RedisLru.RedisIsLru | server/src/state_cache.py:58-103 | with one caller and no lost connection, over every run a key is live, with its last put, exactly for an hour from that put and until fifty others were put or hit since it was |
| RedisLru.EvictedLongestUntouched | server/src/state_cache.py:90-97 | and a put that drops a live key drops one touched longer ago than all it keeps |
| RedisCache.PutKeepsIndexed | server/src/state_cache.py:82-103 | with one caller every unexpired blob stays in the LRU index, also after a put that failed anywhere |
| RedisCache.SuccessfulPutBounds | server/src/state_cache.py:90-100 | a successful put from such a state leaves at most fifty unexpired blobs |
| RedisCache.SerialKeepsIndexed | server/src/state_cache.py:58-103 | with one caller, over every run of gets, puts that may fail anywhere and time passing, every unexpired blob is in the index |
| RedisCache.SerialBound | server/src/state_cache.py:76-103 | and every put that reports success leaves at most fifty unexpired blobs |
| RedisCache.OwnBlobStays | server/src/state_cache.py:84-97 | a put whose write took effect keeps its own blob unless another key was touched at that instant |
| RedisCache.RunKeepsIndex | server/src/state_cache.py:58-103 | under every interleaving an unexpired blob is in the index unless a put begun earlier dropped its entry |
| RedisCache.NothingSlips | server/src/state_cache.py:93-97 | and none is dropped if no key is stored between the deletion of its blob and of its index entry |
| RedisCache.StoredMeanwhileSlips | server/src/state_cache.py:95-97 | and if one is, its live blob is off the index |
| RedisCache.SlipsInARun | server/src/state_cache.py:82-97 | a run from an empty cache in which that happens: the fifty-first put, and a second caller |
| FakePeer.Synthetic.RecordGeneratedInput | web/static/fake-peer.js:198-201 | the history is the newest thirty inputs |
| FakePeer.Synthetic.ScheduleFrame | web/static/fake-peer.js:268-329 | a frame's input is recorded, and its packet lost or queued, possibly with swapped times |
| FakePeer.Synthetic.DrainQueue | web/static/fake-peer.js:341-366 | the due packets are delivered with their redundant inputs, the others stay |
| FakePeer.Synthetic.Tick | web/static/fake-peer.js:386-433 | a tick's whole effect: reset, stall count, target, schedule, drain |
| FakePeerRun.RunKeepsInv | web/static/fake-peer.js:386-433 | between resets the frames sent are consecutive, each once, at most six past the engine's highest, and the history is the newest thirty |
| FakePeerRun.OnePlace | web/static/fake-peer.js:268-366 | each frame sent is in exactly one place: lost, dropped, queued or delivered |
| FakePeerRun.DeliversWhatIsDue | web/static/fake-peer.js:341-366 | a tick delivers exactly what is due, by time then frame |
| FakePeerRun.RedundantIs | web/static/fake-peer.js:203-207 | a packet's redundant copies are the five frames before it among the newest thirty |
| FakePeerRun.LostFrameRecovered | web/static/fake-peer.js:203-366 | a delivered packet f brings frame g if and only if g is one of f-5 to f-1, was sent since the reset, and at most 29 newer frames were sent |
| FakePeerRun.StallIsBridged | web/static/fake-peer.js:368-432 | after n ticks on one engine frame the peer is at least min(n - 3, 6) frames ahead of it |
| FakePeerTiming.TickPace | web/static/fake-peer.js:368-432 | after any run a tick takes the peer to the engine's frame if it was behind or the engine started over; one frame on, at most to six past it, from the fourth tick in a row on a frame; otherwise nowhere |
| FakePeerTiming.PacesTheEngine | web/static/fake-peer.js:405-432 | without such a stall the peer is exactly where the engine has been |
| FakePeerTiming.ArrivesOnTime | web/static/fake-peer.js:309-366 | over every run without swaps a packet is delivered by the first tick at or after its sending plus its delay, and no earlier; with swaps each has the time of some frame sent |
| FakePeerTiming.SwapExchanges | web/static/fake-peer.js:315-328 | a swap exchanges the two newest packets' times and nothing else |
| Desync.Detector.DiffDigests | web/static/kn-desync-detector.js:360-400 | a comparison's flags and the updated last-flag table |
| Desync.Detector.ComparePairwise | web/static/kn-desync-detector.js:268-275 | the two loops compare every pair once, in order |
| Desync.EveryPairOnce | web/static/kn-desync-detector.js:268-275 | each two of the digests are compared, in n(n-1)/2 comparisons |
| Desync.Detector.Tick | web/static/kn-desync-detector.js:487-545 | a tick's whole effect in either mode: with a real peer, no replay and in mode C at every sixth frame it stores and compares its digest, otherwise it compares nothing |
| Desync.Detector.OnPeerDigest | web/static/kn-desync-detector.js:243-255 | a peer digest's whole effect in either mode |
| DesyncRun.CountPairs | web/static/kn-desync-detector.js:268-275 | of a tick's comparisons exactly one is of the local digest with a given peer's |
| DesyncRun.RunKeepsInv | web/static/kn-desync-detector.js:225-266 | the number of comparisons of each peer's frame is its late deliveries, plus one if an early one met its digest |
| DesyncRun.BuiltIff | web/static/kn-desync-detector.js:487-545 | over any run a frame's digest is built exactly if it was ticked with a real peer and no replay, in mode C at a multiple of six |
| DesyncRun.ComparedOnce | web/static/kn-desync-detector.js:225-266 | a digest arriving once, at most 60 frames late, is compared exactly once if the run ever has such a tick of its frame, whichever is first, and otherwise never |
| DesyncRun.ComparesTheRightDigests | web/static/kn-desync-detector.js:231-266 | over any run only digests of one frame are compared: ones built by such a tick of it and ones the peers sent |
| DesyncRun.ComparesInOrder | web/static/kn-desync-detector.js:231-287 | in mode B the local side is never the second one; the host compares itself with guests, and a guest only its host with itself |
| DesyncFlags.FlagsAreSpaced | web/static/kn-desync-detector.js:379-399 | over any run at all a field's flags are at least 60 frames apart, the first not before frame 59 |
| DesyncFlags.NoDifferenceUnflagged | web/static/kn-desync-detector.js:334-400 | a phase difference is the only flag; otherwise each of the other fields that differs, in the scene it is for, has from frame 59 on a flag less than 60 frames older |
| DesyncFlags.FlagsFitThePhase | web/static/kn-desync-detector.js:334-357 | stocks and battle fields are flagged only in scene 22, cursors and selections only in scene 16 |
| DesyncFlags.FlagsAreDifferences | web/static/kn-desync-detector.js:360-400 | over any run every flag stands for two compared digests that differ in its field, with that field's slot, and a field flag for two that agree on the phase |
| DesyncFlags.NoFieldFlagBefore59 | web/static/kn-desync-detector.js:387-388 | before frame 59 no field is flagged |
| Timeline.ClampDepth | web/static/rollback-timeline.js:59-63 | a depth between 1 and min(4, max(1, ticks - 2)), and within half a tick of the reported one between those |
| Timeline.BackIsRemainder | web/static/rollback-timeline.js:108-110 | the double remainder is a step back round the track |
| Timeline.MarkTicks | web/static/rollback-timeline.js:111-113 | the marking loop |
| Timeline.RewindTicks | web/static/rollback-timeline.js:107-110 | the loop that lists a rewind's ticks |
| Timeline.Reduce | web/static/rollback-timeline.js:79-179 | the reducer equals the function the lemmas below are about |
| Timeline.RunKeepsInv | web/static/rollback-timeline.js:79-179 | over every run the coloured ticks are the distinct ticks of an active, bounded rewind, the caption is its phase's, lockstep colours none, and a match has no more rewinds than new mispredictions |
| Timeline.HeadMovesOn | web/static/rollback-timeline.js:152-177 | with nothing new the head moves one tick round the track at each call that comes when due, 550 ms after the last move or by the delay in lockstep, at no other, and nothing else changes |
| Timeline.StartsMoving | web/static/rollback-timeline.js:83-98 | a new match or mode sets the head going one interval from now, and shows no earlier misprediction |
| Timeline.RewindStarts | web/static/rollback-timeline.js:104-121 | a new misprediction starts a rewind of the engine's depth, rounded to the nearest tick the track can show |
| Timeline.RewindGoesOn | web/static/rollback-timeline.js:122-151 | a rewind takes its depth and one calls that come when due, 220 ms apart, no other call changes it, and the head moves on 550 ms after it |
| Timeline.HeadStaysInRewind | web/static/rollback-timeline.js:100-162 | the head does not move in a rewind |
| Timeline.NothingPassedOver | web/static/rollback-timeline.js:100-121 | a call outside a rewind sees every misprediction reported |
| Timeline.RewindLasts | web/static/rollback-timeline.js:122-151 | an uninterrupted rewind of depth d lasts at least its red phase and d replay steps |

## Left out

- SessionOrder.ExactlyOnceInOrder: takes an epoch's appends to be contiguous and a ring of at most 2^53 entries, because the code repeats entries otherwise, and excepts the lost ones, because it acks those unstored.
- JSON text: entries, rows and their sizes are abstract lengths; sanitizing of entries is not modelled.
- The legacy `log_data` column, read before the chunks, and rows whose slot is NULL (which SQLite's conflict clause never matches).
- A failing SQL batch stores nothing and acks nothing; cancellation of a running append is not modelled.
- How a client picks what to send is bounded, not computed: any block from its first unacked entry on, or a later one whose skipped entries count as given up.
- RateLimit.Limiter.Cleanup: leaves open which keys the eviction picks, because no run reaches it, and does not model the pruning of connections and warnings.
- `RateLimit`: the disabled switch, warnings, and the per-IP connection count (`register_sid`, `unregister_sid`, `connection_allowed`), which would add only easy members.
- Retention.Database.MarkExpired: takes any selection of distinct matches, because the SELECT has no order and the UPDATE checks again.
- `Retention`: `client_events`, `sweep_unregistered`, the uploads cache, and more than one sweeper at a time; tombstoned matches are taken to receive no new rows.
- Parquet files and metrics of the match rotation; only the entries' classification and its merge are modelled.
- AudioContext, worklet fallback and mute handling; `AudioRing` starts at a ring and its samples.
- Redis transport: a command takes effect at the instant its caller read the clock, and a blob has expired exactly one hour after it was stored. With a slower command a blob can outlive its index entry by the delay.
- FakePeer.Synthetic.ScheduleFrame: which input, delay, loss, spike and swap are chosen is a parameter per frame, not computed from random numbers; the queue's events and the statistics are not modelled.
- RedisLru.RedisIsLru: takes every connection to last and no two gets or puts to happen at one instant, because a put cut short leaves more than fifty in the index and equal scores are evicted in key order.
- DesyncRun.ComparedOnce: takes ticks in strictly increasing frame order, the first at any frame, and a fixed mode, because replays that tick a frame again build and compare its digest again.
- Desync.Detector.Tick: does not model the replay-trajectory event and the broadcast.
- Desync: heartbeats and the matching of a second host; in mode C a guest knows at most one host.
- `Timeline`: the DOM renderer.
- The rollback engine, the WASM core and its exports are not part of this model.
