# Verified models of libpdk

Dafny models of the parts of libpdk whose correctness depends on state, interleaving or
arithmetic, with proofs of what these parts promise.  `dafny verify dfyconfig.toml` checks them.

- **Posted events.** `PostEventList.dfy` and `PostedEvents.dfy` describe one thread's event queue
  as a value; `EventDispatch.dfy` has the methods that post, compress, remove, send and run nested
  loops.  Handlers are arbitrary: a finite script of operations, about which nothing is assumed,
  is consumed by handlers and nested loops, so every state at every depth of nesting is covered.
  `DeferredDeletes.dfy` follows a deferred delete from its post to the pass that delivers it;
  `RefusedDeletes.dfy` is a pass that leaves a due event.
- **Thread affinity.** `ThreadAffinity.dfy` interleaves `postEvent`'s lock-and-recheck loop with
  `moveToThread`, `setParent` and construction; `ThreadTrees.dfy` says what single calls come to,
  `ThreadPulls.dfy` what overlapping pulls cost, `ThreadRemovals.dfy` what removal from another thread can miss;
  `EventMoves.dfy` is the scan that takes events from queue to queue.
- **Lock-free tables.** `ForkfdTable.dfy`, `ForkfdAlone.dfy` and `ForkfdFailures.dfy` (the child
  table of forkfd), `EventTypeRegistry.dfy` and `EventTypeRaces.dfy` (user event types).  Each atomic operation,
  visible store and system call is one step.
- **Streaming hashes.** `Bits.dfy`, `Sponge.dfy` and `KeccakSponge.dfy` (FIPS 202), `BlockHash.dfy`
  with `Sha1.dfy`, `Md4.dfy`, `Md5.dfy` and `Sha2.dfy` (RFC 3174, RFC 1320, RFC 1321, RFC 6234), and
  `CryptographicHash.dfy` over all of them.  Compression functions and the permutation are
  parameters.
- **Translation catalogue.** `NumerusRules.dfy` (validator and interpreter of plural rules) and
  `TranslationIndex.dfy` (hash and index search).
- **Numbers and small algorithms.** `LocaleNumbers.dfy`, `NumberSyntax.dfy`,
  `UnsignedNumbers.dfy`, `NumberBases.dfy`, `NumberForms.dfy`, `LibraryPaths.dfy`, `Checksum.dfy`, `PatternSearch.dfy`.
- `Wrappers.dfy` and `Arithmetic.dfy` are shared helpers.

## Model

| member | source | states |
|---|---|---|
| PostEventLists.UpperBound | include/pdk/base/os/thread/internal/ThreadPrivate.h:94-105 | the insertion point in a part sorted by descending priority: nothing before it has lower priority, what is at it has |
| PostEventLists.AddEventKeepsOrder | include/pdk/base/os/thread/internal/ThreadPrivate.h:89-105 | `addEvent` keeps the part from `m_insertionOffset` on sorted by descending priority, and by posting order within one priority |
| PostEventLists.AddEventKeepsPrefix | include/pdk/base/os/thread/internal/ThreadPrivate.h:89-105 | `addEvent` never touches what lies before the insertion point, so a pass in progress keeps its entries |
| PostEventLists.OriginMonotone | src/kernel/CoreApplication.cpp:1382-1403 | compaction by swapping is stable: the entries kept stay in their order |
| PostEventLists.KeepLength | src/kernel/CoreApplication.cpp:1382-1412 | every entry is either kept or collected, none is lost or doubled |
| PostEventLists.RemovalCounts | src/kernel/CoreApplication.cpp:1382-1403 | clearing slots in place and squeezing them out take the same number of events from every receiver |
| PostEventLists.RemovalClears | src/kernel/CoreApplication.cpp:1405-1409 | after removing all events of a receiver none is counted for it |
| PostEventLists.NullTidy | src/kernel/CoreApplication.cpp:1274-1281 | a live entry's receiver has a positive counter, and taking the event out keeps every counter equal to the live entries |
| PostedEvents.PostKeeps | src/kernel/CoreApplication.cpp:1032-1104 | posting and compression keep the whole invariant (counts exact, at most one DeferredDelete and one Quit for a receiver, every event pending, sent or removed exactly once) |
| PostedEvents.DeliverKeeps | src/kernel/CoreApplication.cpp:1270-1281 | a delivery keeps the invariant, and the counter asserted non-negative at line 1277 is; what is delivered has the receiver, event and priority it was posted with |
| PostedEvents.RepostKeeps | src/kernel/CoreApplication.cpp:1251-1266 | a deferred delete that may not run is not lost: it is queued again, and the old slot is cleared |
| PostedEvents.RemoveEventsKeeps | src/kernel/CoreApplication.cpp:1372-1417 | removal, in place or by compaction, keeps the invariant; for a receiver of this thread the counter asserted zero at line 1406 is |
| PostedEvents.RemovalOutcome | src/kernel/CoreApplication.cpp:1372-1417 | during a pass the slots of the events asked for are cleared in place, otherwise exactly the other entries stay; every receiver counts what it keeps |
| PostedEvents.EraseKeeps | src/kernel/CoreApplication.cpp:1210-1219 | the clean-up erases no live event, and the offset asserted non-negative at line 1217 is |
| PostedEvents.ExecKeeps | src/kernel/EventLoop.cpp:71-101 | whatever runs inside a nested event loop, the loop popped is the one pushed, loop level and stack are as before, and what it delivers is delivered further in |
| PostedEvents.PassEnds | src/kernel/CoreApplication.cpp:1184-1300 | what a finished pass guarantees: levels and nesting, what is left, and what was delivered in which order |
| PostedEvents.LeftOvers | src/kernel/CoreApplication.cpp:1239-1268 | an entry added during a pass holds a new event, or a deferred delete refused during it at its level or further in |
| PostedEvents.PassRefused | src/kernel/CoreApplication.cpp:1239-1268 | whatever a pass leaves of the earlier events it should deliver are deferred deletes refused within it |
| PostedEvents.NothingDueLeft | src/kernel/CoreApplication.cpp:1223-1268 | if its handlers make no pass over everything, a pass for one receiver or one type leaves no earlier event that it should deliver |
| RefusedDeletes.DueLeft | src/kernel/CoreApplication.cpp:1210-1268 | otherwise it can: a queue and a handler for which a due event stays behind |
| PostedEvents.NothingDue | src/kernel/CoreApplication.cpp:1170-1178 | the early return leaves nothing undelivered |
| EventDispatch.RemoveMatching | src/kernel/CoreApplication.cpp:1382-1412 | the removal loop computes the kept (or cleared) list, the decremented counters and the collected events |
| EventDispatch.ThreadData.CompressEvent | src/kernel/CoreApplication.cpp:1127-1149 | a new event is dropped exactly when a DeferredDelete was called for or a live Quit is queued |
| EventDispatch.ThreadData.PostEvent | src/kernel/CoreApplication.cpp:1032-1104 | the state after a post, compression and DeferredDelete level included; what that state is, `DeferredDeletes.PostOutcome` says |
| EventDispatch.ThreadData.RemovePostedEvent | src/kernel/CoreApplication.cpp:1303-1334 | destroying a posted event clears its slot and uncounts it; otherwise nothing changes |
| EventDispatch.ThreadData.RemovePostedEvents | src/kernel/CoreApplication.cpp:1372-1417 | the state after a removal for receivers of this thread, early return included |
| EventDispatch.ThreadData.SendPostedEvents | src/kernel/CoreApplication.cpp:1163-1301 | with handlers that post, remove, send and run loops at will: the pass ends, nesting and invariant are restored, what it leaves of the earlier events it should deliver are deferred deletes refused within it, nothing posted during it is delivered unless a handler sends, and what is delivered comes in queue order |
| EventDispatch.ThreadData.HandleEntry | src/kernel/CoreApplication.cpp:1223-1298 | one turn of the loop at an arbitrary state of an outer pass: the entry is delivered exactly if it is due, and what its handler delivers is delivered at least one level further in |
| EventDispatch.ThreadData.ExecLoop | src/kernel/EventLoop.cpp:54-112 | a nested loop resumes its caller with loop level and loop stack unchanged, and no loop is on the stack twice |
| DeferredDeletes.PostOutcome | src/kernel/CoreApplication.cpp:1032-1104 | only a DeferredDelete for a receiver already waiting to be deleted and a Quit for one with a Quit queued are dropped; any other event stands behind those of its priority, is counted, and a DeferredDelete from its own thread remembers loop level plus scope level, the latter at least 1 inside a loop |
| DeferredDeletes.DeliveredIff | src/kernel/CoreApplication.cpp:1230-1268 | a pass whose handlers do nothing delivers an entry if and only if receiver and type are those asked for and it is no deferred delete that has to wait |
| DeferredDeletes.DeliveredOrLeft | src/kernel/CoreApplication.cpp:1163-1301 | what such a pass does not deliver it leaves in the queue |
| DeferredDeletes.DeleteWaits | src/kernel/CoreApplication.cpp:1071-1088 | from the post of a DeferredDelete to the pass, whatever happened in between: it is delivered, to the receiver it was posted for, if and only if the pass is at a lower level than the post (directly in a loop counts as scope 1), or at a positive level if it was posted outside every loop and handler or from another thread; a pass for deferred deletes delivers it at the very level too |
| DeferredDeletes.NextPassDeletes | src/kernel/CoreApplication.cpp:1071-1088 | posted in a loop, it is delivered by the next pass one scope further out and left queued by one at its own scope |
| DeferredDeletes.LeftWaits | src/kernel/CoreApplication.cpp:1239-1268 | if handlers post and remove but do not send, a pass over everything leaves of the earlier events only deferred deletes that have to wait at its level |
| ThreadAffinity.NextKeeps | src/kernel/CoreApplication.cpp:1039-1104 | any step of any thread, removals in place and by compaction included, keeps every live entry in its receiver's queue, trees together, counters exact, and conserves events |
| ThreadAffinity.UndisputedKeeps | src/kernel/Object.cpp:339-387 | while no two threads move one thread-less object, a mover waiting for its locks would still find what it has checked |
| ThreadAffinity.RunKeeps | src/kernel/Object.cpp:339-442 | over any interleaving in which callers do not overlap moves of a thread-less object and ThreadChange handlers leave its parent alone: entries are in their receivers' queues, trees are together, counters are exact, no event is lost or doubled |
| ThreadAffinity.NeverNegative | src/kernel/CoreApplication.cpp:1276-1277 | no counter is negative: an event counted late is still in the queue its thread has locked |
| ThreadAffinity.RunNeverNegative | src/kernel/CoreApplication.cpp:1276-1277 | so the assert holds after every delivery of every such interleaving, moves and removals included |
| ThreadAffinity.AtRest | src/kernel/Object.cpp:479-521 | with no call under way every object is in its parent's thread and every live entry in its receiver's queue |
| ThreadAffinity.NoDeadlock | include/pdk/base/os/thread/internal/OrderedMutexLockerPrivate.h:30-70 | ordered locking: whenever some thread is in a call, some thread can go on |
| ThreadAffinity.ReparentFamily | src/kernel/Object.cpp:479-521 | `setParentHelper` sets a parent in the object's thread: the object is its last child and nobody else's; without a parent, or with one in another thread, it has none and is nobody's child; the parent it has already changes nothing; parents and child lists stay in agreement |
| ThreadAffinity.ConstructKeeps | src/kernel/Object.cpp:153-175 | an object built below a parent without a thread joins that parent's thread data; one in a foreign thread gets no parent |
| ThreadAffinity.ShiftCounts | src/kernel/Object.cpp:409-427 | moving the events of one object changes no receiver's total |
| ThreadTrees.SetParentDoes | src/kernel/Object.cpp:479-521 | the same as a step of the thread the object lives in, which changes nothing else |
| ThreadTrees.NewObjectDoes | src/kernel/Object.cpp:153-175 | a new object lives in its parent's thread data if that has no thread, else in the thread that builds it; it has the parent, as its last child, exactly if it lives where the parent does |
| ThreadTrees.MoveStartsIff | src/kernel/Object.cpp:339-377 | a move gets as far as its locks if and only if the object is not there already, has no parent, is no widget, and lives in the calling thread or is pulled into it out of none |
| ThreadTrees.MoveArrives | src/kernel/Object.cpp:409-442 | when a move ends, the object and everything below it live in the target thread, and every live entry for them is in its queue |
| ThreadTrees.PostArrives | src/kernel/CoreApplication.cpp:1046-1095 | a post puts its event, with its priority, into the queue of the thread that the receiver lives in at that moment |
| ThreadTrees.PostCounts | src/kernel/CoreApplication.cpp:1094-1097 | and counts it once, for its receiver |
| ThreadTrees.DeliveredAtHome | src/kernel/CoreApplication.cpp:1223-1281 | an event is delivered by the thread its receiver lives in, out of that thread's queue, and uncounted |
| ThreadPulls.PullRightIff | src/kernel/Object.cpp:357-383 | a move is right if and only if the object was still in one of the two locked threads, or had no events |
| ThreadPulls.ChildLeft | src/kernel/Object.cpp:357-383 | otherwise its children stay where it was |
| ThreadPulls.TwoPulls | src/kernel/Object.cpp:357-383 | two overlapping pulls leave an event in the wrong queue: a whole interleaving, calm but for one step |
| ThreadRemovals.RemovalIff | src/kernel/CoreApplication.cpp:1372-1409 | after a removal of all events of a receiver its counter is zero if and only if the receiver was still in the thread read before the lock, or had none |
| ThreadRemovals.OwnRemovalClears | src/kernel/CoreApplication.cpp:1372-1409 | so it is for every receiver in the removing thread |
| ThreadRemovals.RemovalMissed | src/kernel/CoreApplication.cpp:1374-1409 | an interleaving in which the owner moves the receiver between the read and the lock |
| EventMoves.ShiftKeepsOrder | src/kernel/Object.cpp:409-427 | an object's events keep their order within each priority and come behind those already there |
| EventMoves.MoveEvents | src/kernel/Object.cpp:409-427 | the scan moves exactly the live entries of the object, once each |
| ForkfdTable.NextKeeps | thirdparty/forkfd/forkfd.c:150-204 | every atomic step keeps busy counts equal to occupied entries plus what is in flight, and single ownership |
| ForkfdTable.RunSafe | thirdparty/forkfd/forkfd.c:267-284 | after any interleaving: counters exact and not negative, one owner at most for an entry at -1, one notice at most for a child, written to its own pipe; and every reaped child of `forkfd` has been told of exactly once, unless the thread that reaped it is about to |
| ForkfdTable.NextGrows | thirdparty/forkfd/forkfd.c:171-204 | the chain of arrays only grows, and what a pipe has been told stays told |
| ForkfdTable.FreeInfoAssert | thirdparty/forkfd/forkfd.c:267-274 | the assert on `busyCount` holds whatever other threads do |
| ForkfdTable.GuardMeansFree | thirdparty/forkfd/forkfd.c:150-169 | a counter that passes the guard means that some entry is free |
| ForkfdTable.OwnChild | thirdparty/forkfd/forkfd.c:339-350 | the child that is reaped is the one the taken entry was made for |
| ForkfdAlone.HandlerTells | thirdparty/forkfd/forkfd.c:286-417 | a handler that nobody disturbs reaps and tells the death of every child that is in the table and dead when it begins, and leaves no entry with a dead child |
| ForkfdAlone.ForkEnters | thirdparty/forkfd/forkfd.c:646-752 | an undisturbed `forkfd` that returns has made one child, and the entry it reserved holds the child's pid and the write end of its pipe |
| ForkfdFailures.CrashIff | thirdparty/forkfd/forkfd.c:180-204 | over any interleaving a thread goes on with a null array if and only if the weak compare-and-swap on `nextArray` failed while the pointer was null |
| ForkfdFailures.CrashHappens | thirdparty/forkfd/forkfd.c:150-204 | an interleaving from the empty table that gets there |
| ForkfdFailures.AbandonedIff | thirdparty/forkfd/forkfd.c:340-350 | over any interleaving an entry is taken with nobody to free it if and only if `tryReaping` was called for it while its child was running |
| ForkfdFailures.AbandonedNeedsReuse | thirdparty/forkfd/forkfd.c:332-350 | that takes a pid given out twice: the running child has the pid of one that had exited |
| ForkfdFailures.AbandonedHappens | thirdparty/forkfd/forkfd.c:332-350 | an interleaving from the empty table that gets there |
| EventTypeRegistry.OrAddsBit | src/kernel/CoreEvent.cpp:44-56 | setting a bit of a word takes that id and no other |
| EventTypeRegistry.BasicAtomicBitField.AllocateNext | src/kernel/CoreEvent.cpp:58-77 | alone, the smallest free id is taken; -1 exactly when every id is taken |
| EventTypeRegistry.BasicAtomicBitField.RegisterZeroBased | src/kernel/CoreEvent.cpp:81-89 | alone, a free hint is honoured |
| EventTypeRegistry.BasicAtomicBitField.RegisterEventType | src/kernel/CoreEvent.cpp:126-130 | the answer lies in [User, MaxUser] or is -1, and exactly it is newly taken |
| EventTypeRegistry.NeverTwice | src/kernel/CoreEvent.cpp:44-89 | over any interleaving two registrations are never answered the same type, and answers lie in [User, MaxUser] |
| EventTypeRegistry.HintHonoured | src/kernel/CoreEvent.cpp:81-89 | among many threads, a thread that registers a free hint and is not disturbed is answered the hint, takes that id and no other, and leaves `m_next` alone |
| EventTypeRaces.BehindIff | src/kernel/CoreEvent.cpp:44-77 | over any interleaving a free id is passed over if and only if a searching thread was refused a free id because its word had changed |
| EventTypeRaces.RightRefusals | src/kernel/CoreEvent.cpp:58-77 | while that does not happen, all ids below `m_next` are taken and -1 is answered only when every id is |
| EventTypeRaces.WrongRefusalIff | src/kernel/CoreEvent.cpp:58-77 | a thread is answered -1 while an id is free if and only if an id that lay below `m_next` when it began, or that it was refused, is still free |
| EventTypeRaces.AloneNoSkip | src/kernel/CoreEvent.cpp:44-89 | it does not happen while registrations do not overlap |
| EventTypeRaces.FreeIdLost | src/kernel/CoreEvent.cpp:44-77 | an interleaving from the empty field in which a thread is answered -1 though an id is free |
| Sponge.PaddedOne | thirdparty/sha3/KeccakSponge.c:194-227 | the last block holds the rest of the message and pad10*1 |
| Sponge.PaddedTwo | thirdparty/sha3/KeccakSponge.c:199-206 | with one bit left the padding takes a block more |
| Sponge.PadMeans | thirdparty/sha3/KeccakSponge.c:194-227 | the padding has ones at both ends and zeros between them, fills whole blocks, and is as short as that allows |
| Sponge.AbsorbedOnce | thirdparty/sha3/KeccakSponge.c:80-192 | the state depends on the message alone, not on how it was split |
| Sponge.OutputPrefix | thirdparty/sha3/KeccakSponge.c:229-266 | a longer output begins with every shorter one |
| Sponge.OutputMeans | thirdparty/sha3/KeccakSponge.c:229-266 | up to one block of output is read off the state that absorbing left; what follows it is the output of the permuted state |
| KeccakSponge.OneOutput | thirdparty/sha3/KeccakSponge.c:229-266 | a message has one output of each length |
| KeccakSponge.SpongeState.InitSponge | thirdparty/sha3/KeccakSponge.c:21-38 | which rates and capacities are accepted, and the empty sponge |
| KeccakSponge.SpongeState.AbsorbQueue | thirdparty/sha3/KeccakSponge.c:40-78 | the queue becomes one absorbed block |
| KeccakSponge.PartRightIff | thirdparty/sha3/KeccakSponge.c:173-176 | the 32-bit part size is what fits behind the queue if and only if the sum does not overflow, or harmlessly so |
| KeccakSponge.SpongeState.Absorb | thirdparty/sha3/KeccakSponge.c:80-192 | any 64-bit length on a byte boundary for which that holds is taken in exactly; refused after a partial byte or once squeezing |
| KeccakSponge.SpongeState.PadAndSwitchToSqueezingPhase | thirdparty/sha3/KeccakSponge.c:194-227 | the absorbed blocks are those of message || pad10*1 |
| KeccakSponge.SpongeState.Squeeze | thirdparty/sha3/KeccakSponge.c:229-266 | each call continues the one output stream |
| KeccakSponge.SpongeState.OutputRead | thirdparty/sha3/KeccakSponge.c:229-266 | whatever calls read it, the output is the sponge's output for the message |
| KeccakSponge.SpongeState.Init | thirdparty/sha3/KeccakNISTInterface.c:19-42 | rate and output length for each hash length |
| KeccakSponge.SpongeState.Update | thirdparty/sha3/KeccakNISTInterface.c:44-59 | the last partial byte is taken from its high bits |
| KeccakSponge.SpongeState.Final | thirdparty/sha3/KeccakNISTInterface.c:61-64 | squeezes the fixed output length |
| KeccakSponge.SpongeState.Sha3Finish | src/utils/CryptographicHash.cpp:176-209 | the digest of message || 01 (SHA-3) or message (Keccak), from a copy; the context can go on |
| BlockHash.FoldConcat | thirdparty/sha1/sha1.cpp:204-225 | folding whole blocks in pieces is folding them at once |
| BlockHash.ZerosFewest | thirdparty/rfc6234/sha224-256.c:510-543 | the zeros of the padding are the fewest that complete a block |
| BlockHash.BytesWrap | thirdparty/sha1/sha1.cpp:227-248 | a length counter that has wrapped writes the same length bytes |
| BlockHash.PaddedBlocks | thirdparty/md4/md4.cpp:210-246 | padding by one block or two is the standard padding |
| BlockHash.PaddingMeans | thirdparty/sha1/sha1.cpp:227-248 | the padding: the message, a one bit, fewer zeros than a block has bytes, and the low bytes of the length in bits in the byte order of the method; whole blocks |
| BlockHash.AllFolded | thirdparty/sha1/sha1.cpp:227-248 | after the padding the chaining state is that of the digest |
| Sha1.Sha1State.Update | thirdparty/sha1/sha1.cpp:204-225 | data in chunks of any size is appended to the message |
| Sha1.Sha1State.Finalize | thirdparty/sha1/sha1.cpp:227-257 | the digest of everything added |
| Md4.CounterExact | thirdparty/md4/md4.cpp:181-184 | the 29-bit `lo` with `hi` counts bytes modulo 2^61 |
| Md4.LengthExact | thirdparty/md4/md4.cpp:230-238 | and yields the 64-bit length in bits |
| Md4.Md4Context.Update | thirdparty/md4/md4.cpp:175-208 | data in chunks of any size is appended to the message |
| Md4.Md4Context.Body | thirdparty/md4/md4.cpp:68-162 | the do-while compresses exactly the whole blocks given |
| Md4.Md4Context.Final | thirdparty/md4/md4.cpp:210-260 | the digest of everything added |
| Md5.CarryExact | thirdparty/md5/md5.cpp:78-80 | the two-word carry counts bytes modulo 2^64 |
| Md5.BitsExact | thirdparty/md5/md5.cpp:134-135 | the last two words hold the length in bits modulo 2^64 |
| Md5.MD5Context.MD5Update | thirdparty/md5/md5.cpp:71-105 | data in chunks of any size is appended to the message |
| Md5.MD5Context.MD5Final | thirdparty/md5/md5.cpp:111-141 | the digest of everything added |
| Sha2.AddLengthExact | thirdparty/rfc6234/sha224-256.c:70-74 | the length words are exact below the limit, and passing it is noticed |
| Sha2.PadByteBits | thirdparty/rfc6234/sha224-256.c:274-301 | the last byte holds the extra bits, a one, and zeros |
| Sha2.SHAContext.AddLength | thirdparty/rfc6234/sha384-512.c:304-308 | `Corrupted` is set exactly when the limit is passed |
| Sha2.SHAContext.Input | thirdparty/rfc6234/sha224-256.c:231-253 | byte-wise input is appended to the message with status success below the limit; the error codes otherwise |
| Sha2.SHAContext.PadMessage | thirdparty/rfc6234/sha224-256.c:510-543 | both padding paths fold the standard padding |
| Sha2.SHAContext.FinalBits | thirdparty/rfc6234/sha384-512.c:517-544 | one to seven more bits close the message; the error codes otherwise |
| Sha2.SHAContext.Finalize | thirdparty/rfc6234/sha224-256.c:473-484 | pads, wipes the block and clears the length |
| Sha2.SHAContext.Result | thirdparty/rfc6234/sha224-256.c:566-583 | the digest, once or again |
| CryptographicHashes.CryptographicHash.constructor | src/utils/CryptographicHash.cpp:214-219 | a new hash has taken in nothing |
| CryptographicHashes.CryptographicHash.Reset | src/utils/CryptographicHash.cpp:226-275 | a fresh context for the method, an empty cache |
| CryptographicHashes.CryptographicHash.AddData | src/utils/CryptographicHash.cpp:277-326 | the data is appended to the message and the cache is dropped |
| CryptographicHashes.CryptographicHash.Result | src/utils/CryptographicHash.cpp:353-443 | method by method: the RFC digest; for Keccak_n n/8 bytes of the sponge of rate 1600 - 2n for the message, for RealSha3_n for the message followed by the bits 01; cached or not, and later input is undisturbed |
| CryptographicHashes.CryptographicHash.Hash | src/utils/CryptographicHash.cpp:445-450 | the same, method by method, for one byte string |
| CryptographicHashes.OneDigest | src/utils/CryptographicHash.cpp:353-443 | there is only one digest, so the cached one equals a recomputation |
| NumerusRules.OpcodeBits | include/pdk/utils/internal/TranslatorPrivate.h:22-43 | an opcode's bits tell its test and modifiers apart |
| NumerusRules.IsValidNumerusRules | src/utils/Translator.cpp:135-185 | accepts exactly the encodings of rules, ORs of ANDs of comparisons |
| NumerusRules.AcceptsIff | src/utils/Translator.cpp:135-185 | the accepted language is the set of encodings |
| NumerusRules.OneTree | src/utils/Translator.cpp:135-185 | a byte string encodes one tree at most |
| NumerusRules.OpcodeMeans | src/utils/Translator.cpp:212-245 | what an opcode byte says of a number: the low three bits compare, bit 3 negates, bits 4 to 6 choose the remainder by ten, by a hundred or the leading digits |
| NumerusRules.RemByTen | src/utils/Translator.cpp:216-217 | the remainder by ten is C's, negative for negative numbers |
| NumerusRules.RemByHundred | src/utils/Translator.cpp:218-219 | so is the one by a hundred |
| NumerusRules.LeadMeans | src/utils/Translator.cpp:220-223 | the leading digits are the number without its last three, as often as it has more than three |
| NumerusRules.SeparatorsMean | src/utils/Translator.cpp:246-268 | 0xFD between two terms means both, 0xFE either, and 0xFF begins the next rule |
| NumerusRules.EvalTerm | src/utils/Translator.cpp:212-245 | one comparison reads only what is there and has its C meaning |
| NumerusRules.NumerusHelper | src/utils/Translator.cpp:200-269 | on any encoding: in bounds, terminates, the index of the first true rule or the number of rules |
| TranslationIndex.HashSmall | src/utils/Translator.cpp:102-121 | the hash stays below 2^28 and is not zero |
| TranslationIndex.HashChains | src/utils/Translator.cpp:659-664 | hashing source, then comment, is hashing them joined |
| TranslationIndex.ElfHashContinue | src/utils/Translator.cpp:102-114 | the loop over a C string |
| TranslationIndex.KnownHashes | src/utils/Translator.cpp:102-121 | the known ELF hashes of `exit` and `syscall` |
| TranslationIndex.BinarySearch | src/utils/Translator.cpp:666-679 | the pointer search finds an entry with the hash if there is one |
| TranslationIndex.BackUp | src/utils/Translator.cpp:682-685 | steps back to the first entry with the hash |
| TranslationIndex.Lookup | src/utils/Translator.cpp:666-700 | visits the entries with the hash, in order, up to the first message, as a linear scan does |
| TranslationIndex.Translate | src/utils/Translator.cpp:652-705 | the message for source and comment, else the one for the source alone |
| TranslationIndex.AnswerMeans | src/utils/Translator.cpp:652-705 | by entries: the first one with the hash of source and comment joined that has a message for the comment; if none has, the first one with the hash of the source alone that has a message without a comment; else nothing |
| LocaleNumbers.Ulltoa | src/utils/LocaleTools.cpp:362-386 | the digits in any base from 2 on, never more than 64 |
| LocaleNumbers.InsertGroups | src/utils/Locale.cpp:2252-2259 | separators inserted from the right stand before every third digit |
| LocaleNumbers.GroupedAt | src/utils/Locale.cpp:2252-2259 | counted from the right every fourth character is a separator, the others are the digits in order |
| LocaleNumbers.LongLongToString | src/utils/Locale.cpp:2225-2320 | sign, padding, grouping and digits in base 10 |
| LocaleNumbers.PrintedMeans | src/utils/Locale.cpp:2259-2318 | the sign, then zeros up to the precision or else, if asked for, up to the width less the sign, then the digits |
| LocaleNumbers.NumberToCLocale | src/utils/Locale.cpp:2411-2544 | the scanning loop against its specification, every refusal included |
| NumberSyntax.AcceptedIff | src/utils/Locale.cpp:2411-2544 | told character by character, without the loop: a text is a number if and only if between white space every character is known, one point at most stands before any exponent, every separator stands in the whole part four characters behind the one before or at most three behind the first digit, each group is complete, and the zeros that are rejected do not occur; the answer is the characters without separators |
| LocaleNumbers.PrintedNormalised | src/utils/Locale.cpp:2411-2544 | what normalising makes of a printed number |
| LocaleNumbers.RoundTripIff | src/utils/Locale.cpp:2667-2679 | every 64-bit number above the smallest, printed and read, is itself, or refused exactly when it has no digit, its separators are rejected, or zeros are padded in front of a group |
| LocaleNumbers.RoundTrip | src/utils/Locale.cpp:2217-2223 | without padding every such number comes back |
| LocaleNumbers.PaddedGroupRefused | src/utils/Locale.cpp:2260-2292 | 1234 in groups, zero-padded to eight characters, is refused |
| UnsignedNumbers.UnsLongLongToString | src/utils/Locale.cpp:2330-2401 | the unsigned form, fast path included |
| UnsignedNumbers.PrintedUnsignedMeans | src/utils/Locale.cpp:2360-2399 | the same for the unsigned form, in which zero has a digit and the width is not shortened by the sign |
| UnsignedNumbers.UnsignedRoundTripIff | src/utils/Locale.cpp:2681-2694 | the same for every unsigned 64-bit number |
| NumberBases.LongLongToString | src/utils/Locale.cpp:2225-2320 | bases other than ten: digits of the number modulo 2^64, zeros, case and prefix |
| NumberBases.UnsLongLongToString | src/utils/Locale.cpp:2330-2401 | the unsigned form, which alone keeps a sign |
| NumberBases.PrintedMeans | src/utils/Locale.cpp:2242-2318 | prefix and digits in the case asked for, zeros up to precision or width, and a zero in front of an octal number with its base shown |
| NumberBases.PrintedDenotes | src/utils/Locale.cpp:2225-2401 | whatever padding, case and prefix, what follows the prefix denotes the number modulo 2^64 |
| NumberForms.DecimalForm | src/utils/LocaleTools.cpp:393-435 | zeros, point and separators of the fixed form |
| NumberForms.ExponentForm | src/utils/LocaleTools.cpp:437-467 | point and exponent of the exponent form |
| NumberForms.DecimalDenotes | src/utils/LocaleTools.cpp:393-435 | the fixed form denotes the digits shifted by the decimal point |
| NumberForms.ExponentDenotes | src/utils/LocaleTools.cpp:437-467 | so does the exponent form |
| NumberForms.FormsAgree | src/utils/Locale.cpp:2153-2181 | both forms denote one rational number, for every point, precision, mode and grouping |
| NumberForms.DecimalShape | src/utils/LocaleTools.cpp:393-435 | the fixed form has no exponent, and as many digits on either side of the point as point, precision and mode ask for |
| NumberForms.ExponentShape | src/utils/LocaleTools.cpp:437-467 | the exponent form has one digit in front of the point, the others behind it, and the exponent in two digits or one at least |
| NumberForms.FormatDigits | src/utils/Locale.cpp:2128-2183 | the value shown is the one given; DFDecimal shows no exponent and max(0, precision, digits behind the point) decimals, DFExponent one digit before the point and max(0, precision, digits - 1) behind it, DFSignificantDigits an exponent exactly beyond the cutoff, padded to the precision exactly if trailing zeroes are asked for; point, separators and exponent as the flags say |
| LibraryPaths.Replay | src/kernel/CoreApplication.cpp:561-583 | terminates; the unmatched prefix of the edited list, then the recomputed paths without those removed |
| LibraryPaths.ReplayIff | src/kernel/CoreApplication.cpp:561-583 | replayed on the original the edited list comes back if and only if no path kept was also removed |
| LibraryPaths.ReplaySame | src/kernel/CoreApplication.cpp:561-583 | which holds for every duplicate-free original |
| LibraryPaths.RemovedIs | src/kernel/CoreApplication.cpp:569-579 | of a duplicate-free original exactly the paths not kept are removed |
| LibraryPaths.ReplayDoes | src/kernel/CoreApplication.cpp:561-583 | paths put in front of the original and paths taken out of it are put in front of the recomputed list and taken out of it |
| LibraryPaths.DuplicateLost | src/kernel/CoreApplication.cpp:573-577 | with a duplicate, dropping one copy drops both |
| Checksum.ByteIsNibbles | src/kernel/StringUtils.cpp:132-144 | two table look-ups are eight bit steps of the reflected division by 0x8408 |
| Checksum.Sum | src/kernel/StringUtils.cpp:132-144 | the complement of the CRC register after the data |
| Checksum.ChecksumVerifies | src/kernel/StringUtils.cpp:123-144 | data followed by its checksum, low byte first, leaves one constant |
| Checksum.KnownChecksum | src/kernel/StringUtils.cpp:132-144 | the check value of this CRC, 0x906E for the digits 1 to 9 |
| PatternSearch.Roll | src/dll/Library.cpp:111-114 | the rolling sum is the sum of the window, in wrapping arithmetic |
| PatternSearch.FindPattern | src/dll/Library.cpp:82-117 | the last hit, or -1 exactly when there is none |
| PatternSearch.HitIff | src/dll/Library.cpp:105-108 | for a pattern without NUL a hit is an occurrence |
| PatternSearch.HitAtNul | src/dll/Library.cpp:105-108 | with the first NUL at p a hit agrees up to it and has the same sum behind it |
| PatternSearch.ExactIff | src/dll/Library.cpp:105-108 | the search is right on every text if and only if what follows the NUL is the only text of its length with its sum |

## Findings

Properties the code does not have in full, each with an input that shows it and the exact
condition under which the property holds.

| property | shown by | exact condition |
|---|---|---|
| a moved object's events are in its thread's queue | ThreadPulls.TwoPulls: two threads pull one object without a thread, the second checks before the first has locked | ThreadPulls.PullRightIff for one move; ThreadAffinity.RunKeeps over whole interleavings, if such moves do not overlap |
| after a removal the receiver's counter is zero (the assert at src/kernel/CoreApplication.cpp:1406) | ThreadRemovals.RemovalMissed: the receiver moves away between the read of its thread data and the lock | ThreadRemovals.RemovalIff; always for receivers of the removing thread, ThreadRemovals.OwnRemovalClears |
| a pass leaves no earlier event that it should deliver | RefusedDeletes.DueLeft: a handler of a pass for deferred deletes makes a pass over everything, which refuses one and resets the offsets | PostedEvents.PassRefused: what is left was refused within the pass; PostedEvents.NothingDueLeft: nothing, if no handler makes a pass over everything |
| `Absorb` takes in data of any 64-bit length | KeccakSponge.NoPart: 2^32 bits behind a byte in the queue make no progress | KeccakSponge.PartRightIff |
| `allocateInfo` never goes on with a null array | ForkfdFailures.CrashHappens | ForkfdFailures.CrashIff: not while the weak compare-and-swap on `nextArray` fails only when the pointer is set |
| an entry at -1 has somebody to free it | ForkfdFailures.AbandonedHappens: a pid is used again between the search and the reaping | ForkfdFailures.AbandonedIff; ForkfdFailures.AbandonedNeedsReuse gives the cause |
| -1 is answered only when every event type is taken | EventTypeRaces.FreeIdLost: a compare-and-swap on a shared word fails because of another id | EventTypeRaces.BehindIff; EventTypeRaces.AloneNoSkip for callers that do not overlap |
| a printed number can be read back | LocaleNumbers.PaddedGroupRefused | LocaleNumbers.RoundTripIff, UnsignedNumbers.UnsignedRoundTripIff |
| replaying changes on the original list gives the edited list | LibraryPaths.DuplicateLost | LibraryPaths.ReplayIff |
| a search hit is an occurrence | PatternSearch.SwappedBehindNul: `strncmp` stops at a NUL of the pattern | PatternSearch.HitAtNul, PatternSearch.ExactIff |

## Left out

- Waking the event dispatcher and `m_canWait`, exceptions, and the lifetime of event objects: the model keeps queue contents, counters and levels.
- The application object is taken to exist, so compression is always on; Windows timer compression is left out.
- Handlers that do not return: a script is finite, so every prefix of a dispatch is covered and the nesting always unwinds; `m_quitNow` and exit codes of event loops are left out.
- PostEventLists.AddEventKeepsOrder: `stamp`, which numbers the calls of `addEvent`, and the `History` of a state are history variables; the program has none.
- EventDispatch.ThreadData.SendPostedEvents: runs for the thread the receiver lives in; the warning for another thread's receiver is left out.
- ThreadAffinity.NextKeeps: handlers that `moveToThread` runs before it locks may create objects and change parents; posts by them are those of another thread, and moves begun inside them are left out.
- ThreadAffinity.RunKeeps: destruction of objects and threads is no step of the interleaving; only an object's own thread changes its parent; whether a removal clears in place or compacts is left open at each call.
- EventDispatch.ThreadData.RemovePostedEvents: removes from this thread's queue; removal through another thread is in ThreadRemovals.
- `spawnfd`, the build for a broken `waitid`, and the clean-up at process exit in forkfd; the memory order of its atomics, which are taken to be sequentially consistent.
- ForkfdTable.RunSafe: a weak compare-and-swap may fail at will; that every child is eventually noticed, whatever others do, is not claimed (ForkfdAlone.HandlerTells is about a handler that is not disturbed).
- EventTypeRegistry.NeverTwice: `testAndSetRelaxed` fails only if the word has changed.
- The rounds of MD4, MD5, SHA-1, SHA-2 and Keccak-f, which are parameters.
- KeccakSponge.SpongeState.Absorb: where the 32-bit part size is not what fits (PartRightIff), the code makes no progress, cuts a byte or leaves the queue; these lengths are excluded.
- KeccakSponge.SpongeState.Update: excludes the same lengths.
- CryptographicHashes.CryptographicHash.AddData: 2^28 bytes or more in one call of a sponge method, where the length in bits overflows `int`, and SHA-2 messages that reach the standard's limit, where `result` has no digest.
- CryptographicHashes.CryptographicHash.Hash: excludes the same messages.
- Sha2.SHAContext.Input: null pointers, which the code answers with an error code; data beyond the limit in the call that reaches it, where the loop goes on with an index outside the block.
- Md5.MD5Context.MD5Update: a big-endian machine, where `byteSwap` swaps.
- The loader of the catalogue, its context table and its sub-translators: the index is taken to consist of whole entries sorted by hash.
- LocaleNumbers.LongLongToString: the smallest 64-bit number, whose magnitude overflows in C; the flags for bases and capitals, which NumberBases has, are off in base ten.
- UnsignedNumbers.UnsLongLongToString: the same flags are off.
- LocaleNumbers.RoundTripIff: `strtoll` and `strtoull` enter by what the C standard says of a decimal number.
- NumberForms.FormatDigits: `double_to_ascii`, zero padding to a width, and signs of floating-point numbers; it starts from the digits and the place of the point.
- The lock-free list: no sequential specification of it is stated here.
- Library and plugin registries and the shared-pointer tracker: no specification of the containers they look things up in is stated here.
- File and process I/O, ELF and Mach-O parsing, and timers: they depend on the operating system.
- Getters, flags, UUIDs, Latin-1 tables and event filters: they carry no state that these properties depend on.
