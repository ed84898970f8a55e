# Verified models of the Showzy core

This project models the stateful and algorithmic cores of the Showzy monorepo in Dafny 4.11 and
proves what they promise. `dafny verify dfyconfig.toml` checks everything.

Code that the repository writes as expressions is modelled as functions, code that changes fields
or runs a loop as classes and methods proved against those functions, and code whose point is
interleaving (`await`, several processes, a server that may crash or expire a key) as a step
machine: a state, events, a total `Step`, and `Run` over a list of events. A theorem about `Run`
speaks about every interleaving.

## The parts

- **Choice resume.** `ChoiceDomain` (order patching, option binding, attempt keys), `ChoiceStore`
  (the atomic store and the lives of a record), `MemoryChoiceStore` and `RedisChoiceStore` (the
  Map under its lock and the Lua scripts, both refining it), `Idempotency` (reservation, lease,
  takeover, finalize and cleanup of the action pipeline, statement by statement), `ChoiceResume`
  (the handler as steps between those two, with crashes anywhere), `ChoiceTiming` (when the
  reservations of a choice are made), `ChoiceSchedules` (runs that order twice, and exactly when
  there are none), `ChoiceRecovery` (what a retry finds), `ChoiceReplies` (when all replies are
  recorded as one turn) and `ChoiceCards` (when they also show one card).
- **Locks.** `KeyLock`, the per-key mutex built from promise tails; `LockedChoiceStore`, the memory
  store under it.
- **ASiC-E containers.** `ByteStrings`, `AsicContainer` (packer and parser), `AsicRoundTrip` (what
  is packed, what is read), `AsicNames` (exactly when both agree), `AsicUnchecked` (what the reader
  does not look at).
- **Streaming replies.** `SpokenText` (the two readers), `SpokenDocument` (what they make of every
  prefix of a document), `SpokenStream` (the transform).
- **Limiters.** `OtpLimiter`, `OtpStores`, `TokenBucket`.
- **Worker.** `LanePool` (the shared cursor), `WorkerLoop` (ticks, wakes, backoff, stop).
- **Codecs and arithmetic.** `HttpHelper` (base64), `ClientIp` and `Ipv6Forms`, `CursorCodec` and
  `Paging`, `ClipToolResult`, `KyivCalendar`, `Money`; with `Decimal`, `Separated`, `Times` and
  `Options` beneath them.

## Where the code does less than one might expect

Each of these is a lemma, with the exact condition where there is one.

- Nothing in the code bounds the time between the claim of a choice and the reservation of its
  order, while the idempotency key of an order is forgotten after 48 hours
  (`ChoiceResume.AtMostOneOrderPerChoice`). A handler that stalls that long orders again
  (`ChoiceSchedules.StalledHandlerOrdersAgain`). A first card has one order over all runs exactly
  when its record life and the longest such delay add up to at most 48 hours
  (`ChoiceSchedules.FirstCardOrderedOnceExactly`): with records of 15 minutes, when no handler
  reserves more than 47 hours and 45 minutes after its claim. A successor is opened again by each
  late handler of its parent, so each parent adds a record life and the delay of the opening
  (`ChoiceSchedules.OneOrderExactly`); the same bound decides whether all replies tell the
  conversation the same (`ChoiceReplies.OneReplyExactly`).
- The turn recorded for a picker holds its text and not its option ids, and an expired successor is
  opened again with new ids. A retry at the end of a record's life is therefore answered under the
  same turn with another card, whose ids replace those on the first (`ChoiceCards.TwoCards`). Any
  delay between a claim and the opening of the successor is enough (`ChoiceCards.OneCardExactly`).
- A retry of a choice gets its reply out only if the turn recorded for that choice says the same
  thing (`ChoiceRecovery.RecordedTurnDecidesTheReply`). If a first attempt recorded a picker and a
  later one then commits the order, the later one ends in an error although its order stands
  (`ChoiceRecovery.OrderAfterPickerIsNotTold`).
- The Redis store still serves a key at the very millisecond of its deadline, the memory store does
  not; and a live text that is no record blocks `open` in Redis only
  (`RedisChoiceStore.OpenAgreesExactly`, and the contracts of `RedisStore`).
- The packer accepts what its own reader refuses or reads differently: more than 16 entries, entries
  over the size budgets, no manifest, names of 65536 bytes or more, names that change on their way
  through UTF-8 (`AsicNames.RoundTripExactly`).
- A cap of zero sends makes the Redis script of the OTP limiter fail instead of refusing
  (`OtpStores.RedisOtpStore.TryRecordSend`).
- A `stop` whose listener fails to stop is rejected while a pass may still be running
  (`WorkerLoop.RejectedStopAwaitsNothing`).
- The reader uses the comment length of a central record only to find the next one. In the last
  record of a packed container it may say anything (`AsicUnchecked.LastRecordMayRunOver`).
- The reader checks the local header at offset 0, and takes the mimetype from wherever its central
  record points (`AsicUnchecked.MimetypeIsStoredAtItsOffset`, `AsicUnchecked.LeadMayBeAnything`).
- A reply with `\b`, `\f` or `\u` is misread while it streams and then repeated when a cut falls
  behind its closing quote (`SpokenStream.CutBehindQuoteRepeats`); what a markdown dump says depends
  on its cuts unless it opens with a pipe (`SpokenStream.CutsAgreeExactly`).
- A cooldown longer than the sending window is forgotten with the send that started it
  (`OtpLimiter.CooldownSpacesExactly`), and its hints can be too long (`OtpLimiter.CooldownHintsExactly`).
- A wake that arrives during a pass that then fails is not served until something asks again
  (`WorkerLoop.FailedPassStrandsTheWake`). Nothing is claimed about dispatches during backoff: a
  tick that was already queued still runs.
- A local time that a forward clock change skips is moved forward by what was skipped
  (`KyivCalendar.SkippedTimeMovesForward`).

## Model

| member | source | states |
|---|---|---|
| `ChoiceDomain.PatchIsTheOnlyResolution` | packages/ai/src/choice.ts:381-432 | An order equals the patched input if and only if it agrees with the stored order everywhere outside the slot the target names and has the chosen entity in that slot |
| `ChoiceDomain.LaterPickWins` | packages/ai/src/choice.ts:381-432 | Resolving one slot twice is resolving it once with the later pick |
| `ChoiceDomain.BindChoiceOptions` | packages/ai/src/choice.ts:271-287 | At most 20 options are shown, in order, each with its own minted id; the option map holds exactly the shown ids; `truncated` is reported when anything was cut |
| `ChoiceDomain.MapForPairs` | packages/ai/src/choice.ts:271-287 | With distinct minted ids every shown id resolves to the catalogue entity of its own row |
| `ChoiceDomain.RecordFromConflict` | packages/ai/src/choice.ts:560-599 | A record is made unless the picker is empty, and every option on its card can be claimed |
| `ChoiceDomain.AttemptKeySeparates` | packages/ai/src/attempt-key.ts:4-17 | Two attempt keys are equal only for the same kind, conversation and trailing id, for any trailing text |
| `ChoiceDomain.TextHidesIds` | packages/ai/src/presenter.ts:475-510 | What the conversation is told of a picker does not depend on the ids minted for its options |
| `ChoiceDomain.LabelsRunTogether` | packages/ai/src/presenter.ts:475-497 | Nor do the labels follow from it: one label with a separator in it is told like two |
| `ChoiceStore.OneWinnerPerLife` | apps/api/src/stores/choice.ts:92-191 | Over every sequence of opens, claims, completes and clock moves: one record life is won by at most one option, an offered one, and completed at most once, only after it was won |
| `ChoiceStore.LiveEntryIsItsLastLife` | apps/api/src/stores/choice.ts:92-191 | A live entry is the record its last open wrote, with the status and the winner its answers imply and the expiry of that open: bind, target, input and option map never change |
| `ChoiceStore.ClaimAnswers` | apps/api/src/stores/choice.ts:104-137 | On every reachable state `claimed` is answered exactly when nobody has won yet, `replay` exactly to the winning option, `conflict` exactly to any other |
| `ChoiceStore.RunKeeps` | apps/api/src/stores/choice.ts:92-191 | Every run keeps the store consistent with its history, and lives only grow: statuses move forward, winners are never replaced, expiry is never extended |
| `MemoryChoiceStore.MemoryStore.constructor` | apps/api/src/stores/choice.ts:64-72 | A new store holds nothing |
| `MemoryChoiceStore.MemoryStore.ReadLive` | apps/api/src/stores/choice.ts:73-83 | Reads the live record, drops an expired one, and changes nothing that is live |
| `MemoryChoiceStore.MemoryStore.Open` | apps/api/src/stores/choice.ts:93-102 | Stores the record as open exactly when no live record has its id, and otherwise changes nothing live |
| `MemoryChoiceStore.MemoryStore.Claim` | apps/api/src/stores/choice.ts:104-137 | Decision and new live state are those of the atomic claim, over expired and unreadable entries too |
| `MemoryChoiceStore.MemoryStore.Peek` | apps/api/src/stores/choice.ts:139-151 | Decision is that of the atomic peek; nothing live changes |
| `MemoryChoiceStore.MemoryStore.Complete` | apps/api/src/stores/choice.ts:153-191 | Decision and new live state are those of the atomic complete |
| `RedisChoiceStore.RedisStore.Open` | apps/api/src/stores/redis.ts:316-326 | `SET PX NX` is the atomic open whenever the live view tells which keys are served, and otherwise leaves the view alone |
| `RedisChoiceStore.RedisStore.Claim` | apps/api/src/stores/redis.ts:135-170 | The script is the atomic claim on every state; only at the very millisecond of the deadline is the decision another one, which is given |
| `RedisChoiceStore.RedisStore.Peek` | apps/api/src/stores/redis.ts:341-354 | The read is the atomic peek except at the millisecond of the deadline, where the answer is given |
| `RedisChoiceStore.RedisStore.Complete` | apps/api/src/stores/redis.ts:172-206 | The script is the atomic complete; at the millisecond of the deadline the decision is given and no live state changes |
| `RedisChoiceStore.OpenAgreesExactly` | apps/api/src/stores/redis.ts:316-326 | Two stores with the same contents answer `open` differently exactly when the key is at its deadline millisecond or holds live text that is no record |
| `Idempotency.AtMostOneCommitPerRetention` | packages/core/src/runtime/idempotency/create-idempotency-hook.ts:133-295 | Over every interleaving of reserving, taking over, executing, finalizing, failing, crashing and cleaning up, two commits under one key belong to reservations 48 hours apart |
| `Idempotency.AnswersAreCommits` | packages/core/src/runtime/pipeline/execute-action.ts:133-314 | A successful reply names a commit made under the caller’s own key for the caller’s own input |
| `Idempotency.RepliesAgree` | packages/core/src/runtime/idempotency/create-idempotency-hook.ts:200-246 | Two successful replies under one key carry the same response, or a whole retention lies between their reservations |
| `Idempotency.FenceUnguards` | packages/core/src/runtime/idempotency/create-idempotency-hook.ts:346-410 | A takeover that passes its fence can never displace a completed row inside its retention: the key it reserves is unguarded |
| `Idempotency.CompletedRowReplays` | packages/core/src/runtime/idempotency/create-idempotency-hook.ts:133-211 | Same key and input as an unexpired completed row: the stored response comes back and the database is unchanged |
| `Idempotency.OtherPayloadConflicts` | packages/core/src/runtime/idempotency/create-idempotency-hook.ts:200-207 | Same key, other input, unexpired row: refused, and the database is unchanged |
| `Idempotency.FreshKeyCommits` | packages/core/src/runtime/idempotency/create-idempotency-hook.ts:146-165 | A key without a row commits exactly once, with the caller’s input |
| `Idempotency.MoveIsOwn` | packages/core/src/runtime/idempotency/create-idempotency-hook.ts:133-295 | What a step adds to the log of reservations and commits was asked for by the stepping caller, and nothing logged changes |
| `Idempotency.RunKeeps` | packages/core/src/runtime/idempotency/create-idempotency-hook.ts:133-312 | Every run keeps the table invariant: rows, reservations, commits and the callers’ phases fit together |
| `ChoiceResume.AtMostOneOrderPerChoice` | apps/api/src/http/assistant-choice.ts:349-543 | Over every interleaving of resumes, retries, crashes, expiries and reopened successors, with any clients, options and stalls, two orders (or turns) committed for one choice are reserved at least 48 hours apart |
| `ChoiceResume.OrdersArePatchedClaims` | apps/api/src/http/assistant-choice.ts:406-442 | Every committed order is the stored canonical input of a life of its choice patched with that life’s first-claimed option; of the only life when the record was never reopened |
| `ChoiceResume.CompletedRepliesNameTheOrder` | apps/api/src/http/assistant-choice.ts:443-470 | A `completed` reply names an order committed under that choice’s key for the claimed option, and a success turn naming that order is recorded |
| `ChoiceResume.SettledRepliesAgree` | apps/api/src/http/assistant-choice.ts:443-528 | All settled replies to one choice tell the conversation the same (one order, one refusal, or one successor in the same words), whichever client or retry got them, unless their turns lie a retention apart |
| `ChoiceResume.NeedsChoiceOffersClaimableOptions` | apps/api/src/http/assistant-choice.ts:306-344 | A `needs_choice` reply shows the deterministic successor under the same bind, and every option on it is in its option map |
| `ChoiceResume.ClaimMakesHandler` | apps/api/src/http/assistant-choice.ts:382-418 | A `claimed` or `replay` answer hands the handler the record of the current life, whose winner is the claimed option |
| `ChoiceResume.RunKeeps` | apps/api/src/http/assistant-choice.ts:258-543 | Every run keeps store, idempotency table, handlers and sent replies consistent with each other |
| `ChoiceRecovery.RetryAfterCommitReplays` | apps/api/src/http/assistant-choice.ts:426-470 | After a crash between the commit of the order and its turn, a retry with the same option replays that order, records the one turn, replies `completed` with it and commits no second order |
| `ChoiceRecovery.RecordedTurnDecidesTheReply` | apps/api/src/http/assistant-choice.ts:258-304 | Once a turn is recorded for a choice, a later handler gets its reply out if and only if that turn is its own, option ids aside; otherwise it ends in an error although its order may be committed |
| `ChoiceTiming.SamePayloadSameTurn` | apps/api/src/http/assistant-choice.ts:258-304 | Two replies are recorded as one turn exactly when they name one order, carry one refusal, or show one successor in the same words |
| `ChoiceRecovery.OrderAfterPickerIsNotTold` | apps/api/src/http/assistant-choice.ts:426-530 | That happens, for every choice, on a run from the initial state: the first request ends in a picker whose turn is recorded; a retry of the same option then commits the order and ends without a reply |
| `ChoiceTiming.ReservationsFollowTheOpening` | apps/api/src/http/assistant-choice.ts:349-543 | Over every run each reservation of a choice is stamped at or after the first opening of its record |
| `ChoiceTiming.OrderedOnce` | apps/api/src/http/assistant-choice.ts:349-543 | If handlers keep given delays and the key of the order outlives every claim of the choice, then over every run the choice has at most one order and every `completed` reply names it |
| `ChoiceTiming.RepliedOnce` | apps/api/src/http/assistant-choice.ts:443-528 | If handlers keep given delays and the key of the turn outlives every claim, then over every run all settled replies to the choice tell the conversation the same |
| `ChoiceSchedules.StalledHandlerOrdersAgain` | apps/api/src/http/assistant-choice.ts:349-470 | Two clients claim one option of a first card, one orders, the other stalls for 48 hours and cleanup runs: it orders again |
| `ChoiceSchedules.OrderedTwice` | apps/api/src/http/assistant-choice.ts:306-543 | Whenever the span from the first opening of a choice to the last reservation reaches 48 hours, a run within the delays orders twice: at any depth of successors, by way of pickers claimed in their last millisecond and reopened |
| `ChoiceSchedules.FirstCardOrderedOnceExactly` | packages/ai/src/choice.ts:22-27 | For a first card: over all runs whose handlers reserve their order at most `delay` ms after their claim there is at most one order, named by every `completed` reply, if and only if `ttl + delay` is at most 48 hours (or records are never opened) |
| `ChoiceSchedules.OneOrderExactly` | apps/api/src/http/assistant-choice.ts:306-543 | The same for every choice, with the bound for its depth: `ttl - 1` and the delay of the order, plus `ttl - 1` and the delay of the opening for each parent, unless successors are opened at once |
| `ChoiceReplies.OneReplyExactly` | apps/api/src/http/assistant-choice.ts:443-528 | All replies to a choice tell the conversation the same over all runs that keep the delays of turn and opening, if and only if the same span is within 48 hours |
| `ChoiceCards.OpenedOnceShownOnce` | apps/api/src/http/assistant-choice.ts:481-514 | Over every run: while the successor of a choice was opened only once, all picker replies to that choice show one card, option ids included |
| `ChoiceCards.TwoCards` | apps/api/src/http/assistant-choice.ts:306-345 | For every choice, any record life and any delays that let a successor be opened a millisecond after the claim of its parent, a run within them answers two requests with one recorded turn and two cards; the option ids of the first are no longer accepted |
| `ChoiceCards.OneCardExactly` | apps/api/src/http/assistant-choice.ts:443-528 | All replies to a choice are the same to their clients, option ids included, over all runs that keep the delays, if and only if the span is within 48 hours and successors are opened without any delay |
| `KeyLock.OneAtATimeInOrder` | apps/api/src/stores/with-key-lock.ts:6-24 | On one key a call is past the queue only when every earlier call has been released: one at a time, in arrival order |
| `KeyLock.LockedCallsAreSequential` | apps/api/src/stores/with-key-lock.ts:6-24 | At every moment of every interleaving a key holds what its finished writes would leave if the calls had run one by one in arrival order: no update is lost |
| `KeyLock.ReadsAreSequential` | apps/api/src/stores/with-key-lock.ts:6-24 | What a call has read is the value that the calls before it leave in that sequential run, so its answer is the sequential answer |
| `KeyLock.FirstInLineIsNeverBlocked` | apps/api/src/stores/with-key-lock.ts:6-24 | The first unreleased call of a key can always take its next step, whatever other keys do and whether or not earlier work was rejected |
| `KeyLock.SettledMeansReleased` | apps/api/src/stores/with-key-lock.ts:6-24 | A settled tail means that every call before it on its key has been released |
| `KeyLock.RunKeeps` | apps/api/src/stores/with-key-lock.ts:6-24 | Every run keeps the chain of tails linked to the arrival order |
| `LockedChoiceStore.OverlappingCallsAreAtomic` | apps/api/src/stores/choice.ts:92-192 | Overlapping opens, claims, peeks and completes of the memory store, each an asynchronous read and write under the key lock, leave the entry of the atomic store after the same calls one by one in arrival order |
| `LockedChoiceStore.OverlappingCallsAnswerAtomically` | apps/api/src/stores/choice.ts:92-192 | And each of them is answered as the atomic store answers it in its turn |
| `LockedChoiceStore.RejectedCallsAreUnseen` | apps/api/src/stores/choice.ts:92-192 | With a peek in the place of each call that was rejected before it wrote, the sequential run leaves the same entry: what such a call read changes nothing |
| `ByteStrings.ReadBackU32` | packages/document-signing/src/asic-container.ts:66-98 | A 32-bit little-endian field reads back as written, for every value that fits |
| `ByteStrings.ReadBackU16` | packages/document-signing/src/asic-container.ts:66-87 | A 16-bit little-endian field reads back as written, for every value that fits |
| `ByteStrings.Concat` | packages/document-signing/src/asic-container.ts:52-64 | The buffer filled part by part at a running offset is the concatenation |
| `AsicContainer.PackAsicE` | packages/document-signing/src/asic-container.ts:179-241 | The loop with its running offset writes the container of the records in order, or refuses what has no valid mimetype |
| `AsicContainer.FindEocd` | packages/document-signing/src/asic-container.ts:243-253 | Searches backwards within the comment limit and stops at the last end record |
| `AsicContainer.ReadRecords` | packages/document-signing/src/asic-container.ts:270-338 | The cursor loop reads the records one after another within the running size total |
| `AsicContainer.ParseCentralEntries` | packages/document-signing/src/asic-container.ts:255-339 | Entry count, directory bounds and every record are checked in this order; the first violation is the error |
| `AsicRoundTrip.UnpackAsicE` | packages/document-signing/src/asic-container.ts:359-386 | The checks on disk order, entries, manifest, signature and payload in this order; what is returned is sound in the sense of `UnpackIsSound` |
| `AsicRoundTrip.UnpackOfPack` | packages/document-signing/src/asic-container.ts:179-386 | For every entry list within the budgets, unpacking the packed file gives exactly the entries with `mimetype` moved first, or the verdict on missing parts |
| `AsicNames.RoundTripExactly` | packages/document-signing/src/asic-container.ts:179-386 | A packed file reads back if and only if the entries keep the reader’s budgets, hold manifest, signature and payload, and have names of fewer than 65536 bytes that survive UTF-8: the packer itself checks none of these |
| `AsicRoundTrip.OffsetsFit` | packages/document-signing/src/asic-container.ts:183-240 | Within the budgets every offset and size fits its 32-bit field, so nothing wraps |
| `AsicRoundTrip.EocdAtFirstProbe` | packages/document-signing/src/asic-container.ts:183-253 | The reader finds the end record of a packed file below 4 GiB, whatever its entries are, at its first probe, with the right count, size and offset |
| `AsicRoundTrip.MimetypeFirstLeads` | packages/document-signing/src/asic-container.ts:160-177 | Reordering puts the valid mimetype first, keeps exactly the same entries and is idempotent |
| `AsicRoundTrip.PackIsInjective` | packages/document-signing/src/asic-container.ts:179-241 | Two lists pack to the same file only if they are the same list up to the position of `mimetype` |
| `AsicRoundTrip.EntriesAreDeclared` | packages/document-signing/src/asic-container.ts:255-338 | The entries of a successful parse are, in order, those of the central records: each has the size, the CRC-32 and the data its record declares and points to, and the name its record holds as far as the file reaches |
| `AsicRoundTrip.UnpackIsSound` | packages/document-signing/src/asic-container.ts:243-386 | Arbitrary bytes that unpack: at most 16 entries within both size budgets; each entry is declared by a central record (size, CRC-32, name, data) and no record is left out; mimetype first with the right content; the first manifest and signature; as payload the entry the manifest names, or without a name the first outside META-INF |
| `AsicRoundTrip.RecordsLieWithin` | packages/document-signing/src/asic-container.ts:270-337 | In an accepted file every central record but the last lies, by its own lengths, wholly within the file |
| `AsicUnchecked.LastRecordMayRunOver` | packages/document-signing/src/asic-container.ts:179-386 | The comment length of the last central record decides nothing: a packed file within the budgets unpacks to the same with any other value there, and from 23 on that record ends, by its own lengths, behind the end of the file |
| `AsicUnchecked.MimetypeIsStoredAtItsOffset` | packages/document-signing/src/asic-container.ts:134-158 | The header checked on disk is the one at offset 0; the mimetype returned is what is stored at the local offset of its own central record |
| `AsicUnchecked.LeadMayBeAnything` | packages/document-signing/src/asic-container.ts:134-386 | The two need not be one file: in front of any container that reads back may stand a local file named mimetype with any content, over the entry budget or not, as long as the file stays below 4 GiB; the unpacked parts are the same without a trace of it |
| `SpokenText.DecodePartial` | packages/ai/src/spoken-reply.ts:164-184 | The index loop reads the rest of the string as the partial decoding does |
| `SpokenDocument.SpokenPrefixFromPartialJson` | packages/ai/src/spoken-reply.ts:145-185 | A complete reply is parsed, anything else searched for key, colon and quote, and decoded as far as it goes |
| `SpokenDocument.PrefixReads` | packages/ai/src/spoken-reply.ts:125-185 | On every prefix of a spoken document the reader answers: nothing before the value, then the decoding of what is there, then the meaning |
| `SpokenDocument.PrefixReadsGrow` | packages/ai/src/spoken-reply.ts:145-185 | What the reader makes of a prefix is a prefix of what it makes of a longer one |
| `SpokenDocument.ShownPrefixOfMeaning` | packages/ai/src/spoken-reply.ts:187-202 | The partial decoding of a text is a prefix of its meaning exactly when it uses only the escapes the partial decoder knows |
| `SpokenStream.SpokenReplyTransform.constructor` | packages/ai/src/spoken-reply.ts:329-332 | A new transform has read and said nothing |
| `SpokenStream.SpokenReplyTransform.EmitHeld` | packages/ai/src/spoken-reply.ts:334-351 | A held end is emitted with the fallback text in front, once |
| `SpokenStream.SpokenReplyTransform.Transform` | packages/ai/src/spoken-reply.ts:353-437 | One part of the stream: the emitted parts and the new state are those of the filter |
| `SpokenStream.ChunksDoNotMatter` | packages/ai/src/spoken-reply.ts:353-437 | However a plain reply is cut into deltas, the emitted text concatenates to exactly the spoken text |
| `SpokenStream.ChunksDoNotMatterExactly` | packages/ai/src/spoken-reply.ts:145-437 | Every cut into deltas spells the reply if and only if it has no `\b`, `\f` or `\u` escape and no markdown mark |
| `SpokenStream.CutsAgreeExactly` | packages/ai/src/spoken-reply.ts:145-437 | The cuts of a reply agree with each other if and only if every cut spells it, or it opens with a pipe and no cut says anything |
| `SpokenStream.CutBehindQuoteRepeats` | packages/ai/src/spoken-reply.ts:187-202 | With such an escape a cut after the closing quote makes the filter say the misread text and then the whole reply again |
| `SpokenStream.MarkedReplyInOneChunk` | packages/ai/src/spoken-reply.ts:115-119 | A markdown dump that arrives in one delta is not said at all |
| `SpokenStream.StreamSpellsTheReply` | packages/ai/src/spoken-reply.ts:323-442 | A whole text from its start part to its end part, with parts of the synthetic `json` tool and any others among its deltas, delivers the plain reply exactly once for every cut; the end part comes last and nothing is held for the flush |
| `SpokenStream.MarkedStreamSaysTheFallback` | packages/ai/src/spoken-reply.ts:334-442 | A whole text whose reply is a markdown dump in one delta says nothing of it, and the flush sends the fallback and the held end |
| `OtpLimiter.SendsAreSpaced` | apps/api/src/auth/otp-send-guard.ts:64-100 | Over every run with a monotone clock no window holds more than the cap of allowed sends, and two of them are a cooldown apart (a window, if shorter), although each step forgets old entries |
| `OtpLimiter.CooldownSpacesExactly` | apps/api/src/auth/otp-send-guard.ts:75-84 | The cooldown separates all sends of every run if and only if it is no longer than the window, or nothing is ever allowed |
| `OtpLimiter.CapHintIsExact` | apps/api/src/auth/otp-send-guard.ts:86-96 | A caller stopped by the cap is let in after its hint, with no other send, and at no whole second before |
| `OtpLimiter.CooldownHintIsExact` | apps/api/src/auth/otp-send-guard.ts:75-84 | On every state a caller stopped by the cooldown is still stopped at every whole second before its hint and not after it, if and only if the last send is still in the window one second before the hint |
| `OtpLimiter.CooldownHintsExactly` | apps/api/src/auth/otp-send-guard.ts:75-84 | All cooldown hints of a policy are exact if and only if its cooldown is at most the window or at most one second, or no window or no send is allowed |
| `OtpLimiter.HintIsPositive` | apps/api/src/auth/otp-send-guard.ts:79-94 | Every hint is at least one second |
| `OtpLimiter.ExpiryIsInvisible` | apps/api/src/stores/redis.ts:71-106 | With a time to live of at least the window, a store that drops the key, whatever it does at the deadline itself, decides every step of every run like one that never does |
| `OtpStores.MemoryOtpStore.TryRecordSend` | apps/api/src/auth/otp-send-guard.ts:107-141 | Decision and new history are those of one attempt; other identifiers are untouched |
| `OtpStores.RedisOtpStore.TryRecordSend` | apps/api/src/stores/redis.ts:71-106 | The script’s loop and branches are one attempt on the surviving history, except that it stops with an error, and no change, exactly when a cap of zero meets an empty window; other identifiers are untouched |
| `OtpStores.OverlappingSendsAreARun` | apps/api/src/auth/otp-send-guard.ts:107-125 | Overlapping asynchronous get-and-set calls under the key lock leave the history of one attempt after another in arrival order |
| `OtpStores.OverlappingSendsDecideInOrder` | apps/api/src/auth/otp-send-guard.ts:107-125 | And each call is decided as in that run |
| `OtpStores.OverlappingSendsAreSpaced` | apps/api/src/auth/otp-send-guard.ts:64-125 | However calls overlap under the key lock, the sends they are allowed on what they read, as they are answered, keep the cap and the spacing of `SendsAreSpaced` when their clock readings are in arrival order |
| `TokenBucket.AdmissionsArePaid` | apps/api/src/stores/redis.ts:39-69 | Tokens are conserved: admitted hits and what is left in the bucket never exceed what was there and the refill |
| `TokenBucket.AdmissionsAreBounded` | apps/api/src/stores/redis.ts:39-69 | Between any two moments of any run at most `limit` hits plus the refill of that stretch are admitted |
| `TokenBucket.RefusedPollsAreFree` | apps/api/src/stores/redis.ts:57-63 | Writing the bucket back on a refused poll changes no later verdict |
| `TokenBucket.BurstNeedsTokens` | apps/api/src/stores/redis.ts:53-68 | A burst is admitted in full exactly when there are as many tokens |
| `TokenBucket.DeletionIsInvisibleExactly` | apps/api/src/stores/redis.ts:48-59 | Deleting an idle key changes no verdict of any run if and only if it was idle for the whole window; keys are kept for two |
| `TokenBucket.RetryHintIsExact` | apps/api/src/stores/redis.ts:60-62 | A refused caller that waits is admitted, with no other hit, exactly from the hinted second on |
| `TokenBucket.RedisRateLimitStore.TryConsume` | apps/api/src/stores/redis.ts:290-308 | Verdict and new bucket are those of a key that never expires, whether or not the server drops it at its deadline |
| `LanePool.TakeKeeps` | apps/worker/src/loop.ts:156-164 | A lane that takes the shared cursor, or leaves, keeps every delivery handed out at most once |
| `LanePool.EndKeeps` | apps/worker/src/loop.ts:101-137 | An execution that ends moves its delivery from in flight to ended and into one counter |
| `LanePool.NeverTwice` | apps/worker/src/loop.ts:152-170 | Every delivery the cursor has passed has been handed to `execute` once, the others not at all; at most one per lane is in flight |
| `LanePool.ReturnedPoolIsSettled` | apps/worker/src/loop.ts:152-175 | When all lanes have left, nothing is in flight, and without a stop the cursor has passed every due delivery |
| `LanePool.SettledPoolCovers` | apps/worker/src/loop.ts:139-175 | With nothing in flight exactly the deliveries the cursor has passed have ended, each once, and the four counts add up to their number |
| `WorkerLoop.EveryPassCoversItsBatch` | apps/worker/src/loop.ts:139-191 | In every pass of every run a due delivery is executed at most once, and exactly once unless stop was requested, and the counts are the tally of the outcomes |
| `WorkerLoop.InFlightIsBounded` | apps/worker/src/loop.ts:152-170 | On every reachable state at most `max(1, min(concurrency, due))` executions are in flight |
| `WorkerLoop.WakeIsServed` | apps/worker/src/loop.ts:193-252 | A wake during a tick, or outside the backoff window, is followed by a later dispatch once that tick or the queue is done, unless the loop stops or a pass fails |
| `WorkerLoop.FailedPassStrandsTheWake` | apps/worker/src/loop.ts:219-245 | A wake during a pass that then throws, in its dispatch or in finding what is due, stays pending, and no dispatch begins until something asks again |
| `WorkerLoop.FirstPassMayThrow` | apps/worker/src/loop.ts:193-245 | Both ways to throw are reached from a loop that has just started |
| `WorkerLoop.NoRequestNoPass` | apps/worker/src/loop.ts:193-252 | With no tick running or queued only another request begins a pass |
| `WorkerLoop.BackoffGrowsToTheCap` | apps/worker/src/loop.ts:224-229 | The backoff window doubles with each consecutive failure until it meets the cap |
| `WorkerLoop.BackoffIsOfTheStreak` | apps/worker/src/loop.ts:193-241 | On every reachable state the refusal window is that of the current streak of failed passes, from the last one on, and a completed pass closes it |
| `WorkerLoop.BackoffExpires` | apps/worker/src/loop.ts:193-206 | On every reachable state a wait of the current window ends the backoff |
| `WorkerLoop.StoppedMeansQuiet` | apps/worker/src/loop.ts:295-306 | Once any call of `stop` has resolved nothing is queued or in flight, and nothing is dispatched, found, executed or cleaned ever again |
| `WorkerLoop.StopDrains` | apps/worker/src/loop.ts:157-170 | After stop is requested every step the loop still takes brings the chain strictly nearer to its end |
| `WorkerLoop.StopCanSettle` | apps/worker/src/loop.ts:295-306 | A requested stop can always be brought to its end without any further call |
| `WorkerLoop.RejectedStopAwaitsNothing` | apps/worker/src/loop.ts:295-306 | A stop that is rejected because the listener fails has not awaited the chain: a pass may still be running |
| `WorkerLoop.RunKeeps` | apps/worker/src/loop.ts:76-307 | Every run keeps queue, running job, passes, stop calls and backoff consistent |
| `HttpHelper.Base64Encode` | packages/document-signing/cpp-bridge/http-helper-native.cpp:44-59 | The three-byte loop with its padding writes the base64 text of the groups |
| `HttpHelper.Base64Decode` | packages/document-signing/cpp-bridge/http-helper-native.cpp:60-92 | For every text, well-formed or not, the unmasked 32-bit accumulator yields exactly the whole bytes of the bit string that the symbols before the first other character stand for |
| `HttpHelper.EncodingDenotes` | packages/document-signing/cpp-bridge/http-helper-native.cpp:44-59 | The symbols of an encoding stand for the bytes that were encoded (section 4 of RFC 4648) |
| `HttpHelper.RoundTrip` | packages/document-signing/cpp-bridge/http-helper-native.cpp:44-92 | What the decoder may return for an encoding is the original, for every byte string |
| `HttpHelper.EncodedLength` | packages/document-signing/cpp-bridge/http-helper-native.cpp:44-59 | Four characters for every three bytes begun |
| `HttpHelper.EncodeThenDecode` | packages/document-signing/cpp-bridge/http-helper-native.cpp:44-92 | Encoding and then decoding gives the input back |
| `HttpHelper.RandomUris` | packages/document-signing/cpp-bridge/http-helper-native.cpp:221-238 | The shuffled list is a permutation whatever the random bytes, and the list itself when there are none |
| `ClientIp.ParseHexGroups` | apps/api/src/http/client-ip.ts:231-243 | The loop reads all groups or refuses at the first that is none |
| `ClientIp.ResolveClientIp` | apps/api/src/http/client-ip.ts:53-67 | An untrusted peer is the client whatever the header says; behind a trusted one it is the rightmost untrusted hop, else the leftmost hop, else the peer |
| `Ipv6Forms.EveryFormIsRead` | apps/api/src/http/client-ip.ts:184-243 | Every legal spelling of eight hextets (any `::`, any hexadecimal groups, any dotted tail) is read as those hextets |
| `Ipv6Forms.AcceptsExactlyTheForms` | apps/api/src/http/client-ip.ts:184-243 | And nothing else is read: the reader accepts exactly the legal spellings |
| `Ipv6Forms.HextetsAreSmall` | apps/api/src/http/client-ip.ts:184-243 | Whatever is read is eight 16-bit numbers |
| `Ipv6Forms.DottedTailRoundTrips` | apps/api/src/http/client-ip.ts:213-229 | Rewriting the IPv4 printing of two hextets gives those hextets back |
| `Ipv6Forms.Ipv4RoundTrips` | apps/api/src/http/client-ip.ts:245-247 | Printing the two hextets of an IPv4 address gives the address back |
| `Ipv6Forms.EveryFormReduces` | apps/api/src/http/client-ip.ts:85-113 | What a legal spelling reduces to depends on its hextets alone, with or without space, brackets and a zone around it: the wrapped IPv4, the IPv4 of its 6to4 prefix, or itself |
| `Ipv6Forms.CanonicalIsFixed` | apps/api/src/http/client-ip.ts:95-108 | Every canonical address is a fixed point, and it is an IPv4 or embeds none |
| `CursorCodec.DecodeCursor` | packages/validation/src/pagination.ts:104-130 | The field loop decodes all fields or refuses |
| `CursorCodec.CursorRoundTripsExactly` | packages/validation/src/pagination.ts:77-135 | A cursor decodes to the values it was made of if and only if there is a field and only a last `remainder` holds the separator |
| `CursorCodec.BarFreeRoundTrips` | packages/validation/src/pagination.ts:91-130 | The remainder may hold any number of separators |
| `Paging.RequestAt` | packages/validation/src/pagination.ts:228-238 | A page is the next `limit` rows with a cursor exactly when more follow, else the rest without one |
| `Paging.EveryRowOnce` | packages/validation/src/pagination.ts:228-238 | Following `nextCursor` ends, and visits every row exactly once and in order, all pages but the last full |
| `ClipToolResult.ClipUnknown` | packages/ai/src/clip-tool-result.ts:120-145 | The recursive loops compute preview and count together |
| `ClipToolResult.ClipIsShortCut` | packages/ai/src/clip-tool-result.ts:120-145 | The preview has no array over 50 at any depth and differs from the value only by arrays that end earlier |
| `ClipToolResult.ClipIsLargest` | packages/ai/src/clip-tool-result.ts:120-145 | It is the largest such value: everything else without long arrays is a cut of it |
| `ClipToolResult.ClipCountsTheLost` | packages/ai/src/clip-tool-result.ts:120-145 | `omitted` counts exactly the elements that the preview lacks |
| `ClipToolResult.NothingOmittedExactly` | packages/ai/src/clip-tool-result.ts:120-145 | Nothing is omitted if and only if the preview is the value, if and only if it had no long array; clipping twice is clipping once |
| `ClipToolResult.UnwrappedExactlyWithinBudget` | packages/ai/src/clip-tool-result.ts:194-225 | An ordinary result is fed unwrapped if and only if it meets both budgets |
| `ClipToolResult.FedIsShort` | packages/ai/src/clip-tool-result.ts:147-225 | Whatever is fed of an ordinary result has no array over the backstop, and a wrapper admits to an omission |
| `ClipToolResult.IdentitySurvives` | packages/ai/src/clip-tool-result.ts:87-225 | Every top-level identity field comes through both shrink stages with its clipped value, and none appears from nowhere |
| `ClipToolResult.RowKeepsIdentity` | packages/ai/src/clip-tool-result.ts:147-156 | A shrunk row keeps its identity fields and only those if it has any, and otherwise everything |
| `KyivCalendar.InversionExactly` | packages/ai/src/kyiv-calendar.ts:66-94 | With at most one offset change near it, the two probes meet the wanted local time if and only if some instant shows it |
| `KyivCalendar.InversionFindsAnAnswer` | packages/ai/src/kyiv-calendar.ts:66-94 | On a doubled hour the answer is the later instant |
| `KyivCalendar.SkippedTimeMovesForward` | packages/ai/src/kyiv-calendar.ts:66-94 | On a local time that a forward change skips the answer is off by exactly what was skipped |
| `KyivCalendar.DateOf` | packages/ai/src/kyiv-calendar.ts:104-112 | Every day number is the number of the valid date it is read as |
| `KyivCalendar.InMonthExactly` | packages/ai/src/kyiv-calendar.ts:122-129 | A date lies between the first and the last day of a month if and only if it is in that month |
| `KyivCalendar.WeekDates` | packages/ai/src/kyiv-calendar.ts:114-120 | A date lies within six days of a Monday of the week if and only if it has the same Monday |
| `KyivCalendar.PeriodHoldsExactly` | packages/ai/src/kyiv-calendar.ts:135-160 | The bounds hold exactly the instants whose local date is in the period of now, when the offset does not change between the two boundaries and the same UTC reading |
| `KyivCalendar.NowIsInside` | packages/ai/src/kyiv-calendar.ts:135-160 | So `now` lies in today, this week and this month |
| `KyivCalendar.TodayIsInside` | packages/ai/src/kyiv-calendar.ts:135-160 | The bounds of today lie within the bounds of this week and of this month |
| `Money.MoneyWireIsInt64` | packages/validation/src/money.ts:24-36 | The accepted strings are exactly the base-10 printings of the int64 values |
| `Money.MoneyRoundTrips` | packages/module-kit/src/canonical.ts:3-9 | Printing and reading money are inverse, each way round |
| `Money.QuantityIsExact` | packages/validation/src/money.ts:83-97 | The conversion answers `m` if and only if the accepted string denotes exactly `m / 1000` with `m` positive and within int64 |
| `Money.EqualQuantitiesAgree` | packages/validation/src/money.ts:83-97 | Two accepted spellings of one number convert alike |
| `Decimal.ReadPrinted` | packages/module-kit/src/canonical.ts:3-9 | Reading undoes printing, for every integer |
| `Decimal.PrintRead` | packages/validation/src/money.ts:24-36 | Printing undoes reading, for every canonical numeral |

## Left out

- Clocks: every machine has one clock that does not go back; each process of the idempotency
  machine may act on a reading it took any time before.
- Hashes: `successorChoiceId` is an injective constructor instead of a SHA-256 text, and request
  hashes are compared as the payloads they stand for.
- Records in the choice stores: `parseChoiceRecord` and `serializeChoiceRecord` are inverse on
  records; a stored text is a record or unreadable. The optional locale of a record is not modelled,
  and texts are those of the default language.
- The choice handler: session, company and conversation lookup come before the claim and are not
  modelled. The text and result ids of a completed order stand for that order. An error of the
  choice store ends a handler like a crash. `executeStaffAssistantChoicePeek` is not modelled.
- The delays in `ChoiceTiming` are not in the code; they are what a deployment would have to bound.
- The action pipeline: authorization, confirmation grants and the probe, audit, outbox events and
  handler bodies; an execution either commits or fails. Responses are named by their commit.
- The ZIP library functions: CRC-32, DEFLATE, text decoding, the two name patterns and the payload
  URI of a manifest are abstract functions.
- Streaming replies: JSON of any other shape than one object with the member `spoken` is not
  modelled, nor are `spokenTurnText` and `sanitizeSpoken`, nor the fallback texts. The
  fallback is one text for a whole stream, while the code asks for it each time it emits it.
- OTP limiter: identifier normalization and the JSON text of a history are not modelled.
- Token bucket: exact reals instead of doubles, and the error path of the script's caller.
- Worker: `start`, timers and logging; their calls into the loop are the machine's events. What
  `execute`, `dispatch`, `findDue` and `cleanup` do is the environment's choice.
- Base64: the HTTP bridge around it.
- Client addresses: `BlockList` and its construction are an abstract predicate.
- Cursors: the payload schema behind `decode`, cursors with values of the wrong type or missing,
  and integers beyond 2^53. The query that fetches rows is the listing's filter, order and limit.
- Clipping: values that are no JSON, a record key `__proto__`, and record keys that name inherited
  object members, which `compactIdentity` takes for picked ones.
- Calendar: `Intl` is the offset function and the local date it implies; `Date.UTC` moves the years
  0 to 99 to 1900, which is not modelled; the clock line for the model is not modelled.
- Money: `BigInt` is modelled on canonical numerals only; the Zod schemas around the predicates are
  not modelled.
- SpokenStream.ChunksDoNotMatter: excludes the escapes the partial decoder does not know, since the
  property is false for them, as `SpokenStream.ChunksDoNotMatterExactly` states.
- RedisChoiceStore.RedisStore.Claim: does not model a stored text that is JSON but no record, which
  the script takes for one; nothing in the repository writes such a text.
- RedisChoiceStore.RedisStore.Complete: does not model such a text either.
- AsicNames.RoundTripExactly: asks for two properties of UTF-8: no text is what its encoding decodes
  to when its last 65536 bytes or more are cut off, and decoding makes no byte into more than three.
- Other data, prompts, routes, vendors and user interfaces of the repository.
