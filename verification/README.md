# Proofs about the tutor-matching worker

A Dafny model of the parts of the tutor-matching repository where a mistake is hardest to see: the turn protocol that
must answer every WhatsApp message exactly once, the outbox with its leases, the weekly schedule algebra, the SQL token
bucket, the tiered cache, the trust-ordered requirement merge, and the parsers, chunkers, tokens, envelopes and build
locks around them. `dafny verify dfyconfig.toml` checks everything.

Where the program changes state in place - stores, caches, indexes, ledgers, loops over buffers - the model has classes
with fields and methods with loops, each proved against a function of the old state; what those functions are good for
is then proved as lemmas. Protocols in which several processes or coroutines interleave are state machines over atomic
steps, and their theorems range over every run.

## What is in each file

| file | contents |
|---|---|
| `TurnProtocol.dfy`, `Delivery.dfy`, `TurnService.dfy` | workers, redeliveries, exceptions, crashes, relays and retention over one idempotency table, one conversation table and one outbox; what together they do to one message's save and reply; `handle` as a run of that protocol |
| `Machine.dfy`, `Stores.dfy` | the conversation state machine; both implementations of the conversation and idempotency stores |
| `Outbox.dfy`, `OutboxStores.dfy`, `SqlOutbox.dfy` | the life of one outbox key; the in-memory and the SQL outbox as refinements of it |
| `Schedule.dfy`, `Scheduling.dfy` | weekly windows as sets of minutes; timezone conversion and slot suggestion |
| `RateLimit.dfy` | the lazily refilled token bucket |
| `LruCache.dfy`, `TieredCache.dfy`, `CachedTutors.dfy` | the LRU cache with expiry; containers in front of a shared table; the candidate-pool cache |
| `LikePatterns.dfy` | what the SQL patterns of a cache clear and of the name search match |
| `Requirement.dfy` | tracked values, the merge of two records, memory and model overlays |
| `DumpImport.dfy`, `Text.dfy` | the splitter for SQL dump rows; trimming |
| `Chunker.dfy`, `RagIndex.dfy`, `Embeddings.dfy` | paragraph chunks with overlap; the passage index and search; the embedding ledger |
| `Base64.dfy`, `Utf8.dfy`, `Tokens.dfy` | URL-safe base64, UTF-8, public tutor references, continuation tokens |
| `Handoffs.dfy` | the agent graph and envelope chains |
| `BuildLocks.dfy` | the two nested build locks on one event loop |
| `Sets.dfy`, `Wrappers.dfy` | small helpers |

## What the proofs turned up

These follow the code where a comment, a contract or another part of the repository says something else. Each is stated
with its exact condition, or with a concrete run.

- The conversation save and the reply's outbox row are two transactions, although the port describes one
  (`repositories/ports.py:166-171`). A message is saved twice only after a saved worker lost its claim - it met an
  exception and released it, or the claim lapsed - and whenever the claim is free a redelivery does save again
  (`Delivery.SecondSaveNeedsALostClaim`, `Delivery.RedeliverySavesExactly`). The route the code leaves open is an outbox
  insert that fails, or whose commit is not acknowledged (`Delivery.ExceptionAfterSaveIsSavedAgain`;
  `TurnProtocol.ExceptionAfterReplyRepeatsTheSave` is the second as one run). A saved message has no reply exactly if no
  worker on it reached a deliverable enqueue (`Delivery.RepliesAreLostExactly`), and after a crash it stays without one
  for as long as the claim is live (`Delivery.LostReplyStaysLost`; `TurnProtocol.CrashAfterSaveLosesReply` is one run).
- The transition table has no way from SHORTLIST_READY to HUMAN_REVIEW, so a matched turn that asks for a human does not
  get there (`Machine.HandoffReachesHumanReview`).
- A save is not always an advance: in some states it stores the same version again (`Machine.VersionAdvancesUnlessFrozen`).
- The SQL history column only ever holds the last turn (`ConversationStore.SqlHistoryIsOneTurn`).
- SQL verdicts on an outbox row are unguarded: a late failure brings a delivered row back
  (`KeyLife.LateFailureRevivesDelivered`).
- At `expiry == now` the in-memory claim succeeds and the SQL claim does not (`IdempotencyStore.ClaimsAgreeExceptAtExpiry`).
- Sweeping expired buckets changes no decision exactly if a bucket fills within its hour (`RateLimit.SweepsAreHarmlessExactly`);
  the sweep is documented, but `sync/retention.py:38-73` does not do it.
- The merge of requirements is associative except for one pattern with an unstamped value in the middle
  (`Requirement.MergeAssociatesExactly`); and a remembered value does replace a model's guess
  (`Requirement.MemoryReplacesExactly`).
- Two texts can name the same tutor (`Identity.SecondRefExistsExactly`).
- The hop budget of six is never what stops a chain: the graph allows three hops (`Handoffs.HopsAreRefusedExactly`).
- Ingesting an edited document under its old version bars the old text for good, whatever is ingested or superseded later (`RagIndex.ForgottenTextStaysBarred`), and
  superseding leaves term counts too high (`RagIndex.SupersedeOvercountsExactly`).
- Clearing a namespace puts its prefix into a LIKE pattern without the escaping that the name search applies
  (`repositories/postgres.py:101-108`): the shared tier loses exactly the keys the front loses if and only if the prefix
  has no `%`, `_` or backslash (`LikePatterns.ClearsItsPrefixExactly`), and the default policy's name has two `_`
  (`config/settings.py:197`). A backslash, which that name does not have, could even spare the namespace
  (`LikePatterns.ClearReachesItsKeysExactly`, `LikePatterns.BackslashSparesItsOwnKeys`).
- Queries that differ only in class labels or wanted freshness share a cached pool (`CachedTutors.SameShapeSharesThePool`).

Three more hold of inputs that the contracts admit but the code, as it stands, never produces:

- A dedup key longer than 122 characters could never be answered, because the reply's key is capped at 128 after a
  six-character prefix (`TurnProtocol.LongKeysAreNeverAnswered`). Both producers of an envelope
  (`handlers/ingress.py:209`, `orchestration/handoff_service.py:266`) take the key from `idempotency_key`, which returns
  48 hexadecimal digits.
- Escalating to the model would reset a timezone other than the default (`Requirement.EscalationResetsTheTimezone`). The
  extractor is only ever built with its default (`orchestration/turn_service.py:155`, `orchestration/enrichment.py:64`),
  and that is the value the overlay resets to.
- A chunk without a checksum would be embedded again on every run (`Embeddings.SecondRunIsFreeExactly`). The only place
  that builds one (`rag/pipeline.py:136`) always sets it.

## Model

| member | source | states |
|---|---|---|
| TurnProtocol.OneWorkerPerKey | src/tutor_match_meta/orchestration/turn_service.py:209-257 | over every interleaving of arrivals, saves, exceptions, releases, crashes and sweeps, at most one worker is inside a turn for a dedup key, on either backend, as long as no held claim expires |
| TurnProtocol.StepKeeps | src/tutor_match_meta/orchestration/turn_service.py:209-262 | every step of every worker keeps the invariant that ties claims, loads, saves and reply rows together |
| TurnProtocol.ReplyRowsFollowSaves | src/tutor_match_meta/orchestration/turn_service.py:373-380 | every reply row was written by a worker on its key whose conversation save had succeeded, and a worker that saved and returned has its row unless retention deleted it |
| TurnProtocol.ReplyRowsAreWrittenOnce | src/tutor_match_meta/orchestration/turn_service.py:832-865 | once a key has a reply row, no enqueue, relay or verdict ever changes its author or body, until retention deletes it |
| Delivery.OneRowUntilRetired | src/tutor_match_meta/repositories/postgres.py:497-511 | over all interleavings of workers, relays and retention, a key gets a second reply row only after retention deleted a delivered one |
| Delivery.NextRowIsAMonthLater | src/tutor_match_meta/sync/retention.py:33-54 | and that second row comes more than thirty days after the first was delivered, or was still there undelivered |
| Delivery.LeasesFollowSaves | src/tutor_match_meta/repositories/postgres.py:513-562 | every lease of a reply comes after a successful save by a worker on its key |
| Delivery.ReplyLeasesAreAccountedFor | src/tutor_match_meta/repositories/postgres.py:513-616 | in the same runs, leases of a reply row plus one while pending never exceed one plus its failures and reclaims |
| Delivery.SecondSaveNeedsALostClaim | src/tutor_match_meta/orchestration/turn_service.py:243-257 | in every run, two saves on one dedup key mean that the first saver's claim was released after an exception, or lapsed |
| Delivery.AtMostOneSavePerKey | src/tutor_match_meta/orchestration/turn_service.py:243-257 | so a key is saved at most once if no saved worker on it released its claim or outlived it |
| Delivery.GaveUpExactly | src/tutor_match_meta/repositories/postgres.py:471-490 | a saved worker has lost its claim exactly if it does not own the live claim on its key |
| Delivery.RedeliverySavesExactly | src/tutor_match_meta/repositories/postgres.py:471-486 | from every reachable state, a redelivery saves the message again exactly when its claim is free |
| Delivery.ExceptionAfterSaveIsSavedAgain | src/tutor_match_meta/orchestration/turn_service.py:248-257 | from every reachable state, a saved worker that meets an exception before it returns leaves its message to be saved again |
| Delivery.RepliesAreLostExactly | src/tutor_match_meta/orchestration/turn_service.py:449-457 | a saved worker out of its turn has no reply row exactly if no worker on its key reached a deliverable enqueue, and then it crashed or raised |
| Delivery.StoppingLosesTheReplyExactly | src/tutor_match_meta/orchestration/turn_service.py:449-457 | at the moment a saved worker crashes or meets an exception before its enqueue, its message has had a reply row exactly if an earlier worker on the key, which lost its claim since, enqueued one |
| Delivery.LostReplyStaysLost | src/tutor_match_meta/orchestration/turn_service.py:227-240 | after a crash before the enqueue, no redelivery answers the message while the claim is live |
| Delivery.StepKeepsDelivery | src/tutor_match_meta/orchestration/turn_service.py:209-262 | every step of workers, relays and retention keeps claims, saves, rows and leases in agreement |
| Delivery.BoxOperationIsARelayStep | src/tutor_match_meta/repositories/memory_store.py:193-255 | every operation of the in-memory outbox but an enqueue is one relay step of the protocol, with statuses and texts |
| Delivery.TableOperationIsARelayStep | src/tutor_match_meta/repositories/postgres.py:513-616 | and so is every statement of the SQL outbox but the insert, with statuses, delivery times and texts |
| Delivery.RetentionIsAStep | src/tutor_match_meta/sync/retention.py:33-54 | the cleanup, which deletes the rows delivered more than thirty days ago, is a retention step |
| Delivery.EnqueueIsAPut | src/tutor_match_meta/repositories/memory_store.py:181-191 | the in-memory enqueue of the reply's text is the protocol's |
| Delivery.InsertIsAPut | src/tutor_match_meta/repositories/postgres.py:497-511 | the SQL insert of the reply's text is the protocol's |
| TurnProtocol.SaveOnlyOnWhatWasLoaded | src/tutor_match_meta/repositories/postgres.py:327-375 | no lost update: a save succeeds only if the stored snapshot is exactly the one that worker loaded |
| TurnProtocol.SavesFormOneHistory | src/tutor_match_meta/repositories/postgres.py:327-375 | the saves of every run form one linear history per conversation whose end is what is stored |
| TurnProtocol.UnansweredClaimHasAReason | src/tutor_match_meta/orchestration/turn_service.py:227-257 | a live claim on a key that never had a reply row has an owner that is in its turn, crashed, could not release, or ignored a selection |
| TurnProtocol.LongKeysAreNeverAnswered | src/tutor_match_meta/contracts/outbound.py:72-81 | a dedup key longer than 122 characters, which the contract admits and no producer mints, never gets a reply row |
| TurnService.TurnService.Handle | src/tutor_match_meta/orchestration/turn_service.py:209-257 | one uninterrupted call on the in-memory stores is a run of the protocol; exactly when it is a duplicate, shed, ignored or answered; the conversation ends in the state its own path names and no other changes; a new reply key gets the kind for its recipient and the text sent, and the caller the whole text; after an exception or a shed turn the claim is gone |
| TurnService.TurnService.Process | src/tutor_match_meta/orchestration/turn_service.py:260-300 | the turn inside the claim: shed, ignored, failed, or saved and answered, exactly when, and with what effect on the two stores |
| TurnService.TurnService.SaveAndReply | src/tutor_match_meta/orchestration/turn_service.py:373-380 | the save under the loaded version stores the turn of this path and goes through; the reply is enqueued with its kind and text exactly if its key and text are deliverable |
| TurnService.AnsweredByName | src/tutor_match_meta/orchestration/turn_service.py:515-541 | an answered selection leaves DEMO_REQUESTED; a first turn leaves AWAITING_SELECTION when it delivers a match and NO_MATCH when it finds nobody |
| Machine.VersionCountsLegalSteps | src/tutor_match_meta/state/machine.py:189-240 | the lock version grows by exactly the number of legal triggers of a turn, and a turn with none changes nothing |
| Machine.TurnsEndByName | src/tutor_match_meta/orchestration/turn_service.py:303-447 | the state every saved turn ends in, by name, from every state and path, and when it counts as a message |
| Machine.TriggersLeadByName | src/tutor_match_meta/state/machine.py:66-140 | where each trigger leads, by its name |
| Machine.DoorsOut | src/tutor_match_meta/state/machine.py:58-140 | nothing leaves a closed or handed-over conversation, only a close leaves human review, every other state can be left |
| Machine.LegalFrom | src/tutor_match_meta/state/machine.py:66-140 | from exactly which states a conversation can be handed to a human, closed, retried, or fail |
| Machine.EveryStateIsReached | src/tutor_match_meta/state/machine.py:252-262 | no state is orphaned |
| Machine.HistoryIsTheWalk | src/tutor_match_meta/state/machine.py:189-240 | what a turn adds to the history is the walk it made along the table, cut to the newest forty |
| Machine.VersionAdvancesUnlessFrozen | src/tutor_match_meta/state/machine.py:66-140 | the exact states and paths in which a successful save does not raise the version |
| Machine.HandoffReachesHumanReview | src/tutor_match_meta/orchestration/turn_service.py:434-447 | exactly when a turn that asks for a human ends in human review |
| Machine.FirstSaveIsVersioned | src/tutor_match_meta/state/machine.py:189-220 | the first save of a conversation stores a version of at least one |
| ConversationStore.InMemoryConversationStore.Load | src/tutor_match_meta/repositories/memory_store.py:102-105 | the stored snapshot, or a fresh one |
| ConversationStore.InMemoryConversationStore.Save | src/tutor_match_meta/repositories/memory_store.py:107-113 | compare-and-set on the lock version; a conflict leaves the table as it was |
| ConversationStore.PostgresConversationStore.Load | src/tutor_match_meta/repositories/postgres.py:313-325 | the row without its history, or a fresh snapshot |
| ConversationStore.PostgresConversationStore.Save | src/tutor_match_meta/repositories/postgres.py:327-375 | insert on version zero, conditional update otherwise; a conflict leaves the table as it was |
| ConversationStore.SavesDecideAlikeExactly | src/tutor_match_meta/repositories/postgres.py:339-375 | on equal contents the two saves decide alike except on a row stored at version zero |
| ConversationStore.SqlRefinesInMemory | src/tutor_match_meta/repositories/postgres.py:308-375 | with stored versions at least one, loads agree, saves decide alike and contents stay equal |
| ConversationStore.SqlHistoryIsOneTurn | src/tutor_match_meta/repositories/postgres.py:313-337 | the history in the table after a SQL save is that one turn's records, at most five |
| IdempotencyStore.InMemoryIdempotencyStore.Claim | src/tutor_match_meta/repositories/memory_store.py:149-156 | the first claim wins; one at or past its expiry can be retaken |
| IdempotencyStore.InMemoryIdempotencyStore.Release | src/tutor_match_meta/repositories/memory_store.py:158-160 | the next delivery of the key wins its claim at once, and no other key's claim is decided differently |
| IdempotencyStore.PostgresIdempotencyStore.Claim | src/tutor_match_meta/repositories/postgres.py:471-486 | delete the key if strictly expired, then insert unless present |
| IdempotencyStore.PostgresIdempotencyStore.Release | src/tutor_match_meta/repositories/postgres.py:488-490 | the next delivery of the key wins its claim at once, and no other key's claim is decided differently |
| IdempotencyStore.ClaimsAgreeExceptAtExpiry | src/tutor_match_meta/repositories/postgres.py:471-486 | the two claims give the same outcome and table except at the instant of expiry |
| KeyLife.LeasesAreAccountedFor | src/tutor_match_meta/repositories/postgres.py:513-616 | on either store, claims plus one while pending never exceed one plus failures plus reclaims |
| KeyLife.SecondLeaseNeedsAReturn | src/tutor_match_meta/repositories/memory_store.py:193-255 | between two claims of a key lies a failure or a reclaim |
| KeyLife.RetriesWait | src/tutor_match_meta/repositories/postgres.py:572-588 | on either store a key that failed is not leased again before its retry time |
| KeyLife.StoresDifferExactly | src/tutor_match_meta/repositories/postgres.py:564-597 | the exact states and events on which the two stores' next status differs |
| KeyLife.HistoriesAgreeExactly | src/tutor_match_meta/repositories/postgres.py:564-597 | a SQL history is an in-memory one exactly if none of the differing events occurs in it |
| KeyLife.HolderOnlyHistoriesAgree | src/tutor_match_meta/repositories/postgres.py:564-597 | when verdicts come only from the lease holder, a SQL history is an in-memory history |
| KeyLife.AtMostFiveFailures | src/tutor_match_meta/repositories/memory_store.py:213-235 | attempts count the failures, and at most five come before dead |
| KeyLife.TerminalAbsorbs | src/tutor_match_meta/repositories/memory_store.py:202-247 | in memory, delivered and dead are absorbing |
| KeyLife.LateFailureRevivesDelivered | src/tutor_match_meta/repositories/postgres.py:572-588 | in SQL they are not: a run in which a late failure makes a delivered row pending again |
| MemoryOutbox.EveryKeyMoves | src/tutor_match_meta/repositories/memory_store.py:181-255 | every operation moves every key as its life prescribes, and no key is lost or doubled |
| MemoryOutbox.RelaysGetWhatWasEnqueued | src/tutor_match_meta/repositories/memory_store.py:181-255 | over every run, a key keeps the kind and text of the enqueue that brought it in, and a claim returns exactly those |
| MemoryOutbox.TakenAreOldest | src/tutor_match_meta/repositories/memory_store.py:193-200 | a batch is oldest first, within its limit, and short of it only when nothing due is left |
| MemoryOutbox.RunsAreHistories | src/tutor_match_meta/repositories/memory_store.py:163-255 | in every run each enqueued key is in exactly one of pending, claimed, delivered and dead |
| MemoryOutbox.MemoryLeasesAreAccountedFor | src/tutor_match_meta/repositories/memory_store.py:193-255 | lease accounting for every run of the in-memory outbox |
| MemoryOutbox.SweepOut | src/tutor_match_meta/repositories/memory_store.py:202-211 | the loop over the pending list moves exactly the messages with the key |
| MemoryOutbox.InMemoryOutbox.Enqueue | src/tutor_match_meta/repositories/memory_store.py:181-191 | an absent key becomes pending with the message's kind and text; every other key keeps status and content |
| MemoryOutbox.InMemoryOutbox.ClaimBatch | src/tutor_match_meta/repositories/memory_store.py:193-200 | due messages only, oldest first up to the limit, as they were enqueued; exactly their keys are leased |
| MemoryOutbox.InMemoryOutbox.MarkDelivered | src/tutor_match_meta/repositories/memory_store.py:202-211 | a live key becomes delivered, every other keeps its status; contents stay |
| MemoryOutbox.InMemoryOutbox.MarkFailed | src/tutor_match_meta/repositories/memory_store.py:213-235 | a live key counts one more attempt and is pending until its retry time, or dead at the fifth; every other keeps its status, and contents stay |
| MemoryOutbox.InMemoryOutbox.MarkDead | src/tutor_match_meta/repositories/memory_store.py:237-247 | a live key becomes dead, every other keeps its status; contents stay |
| MemoryOutbox.InMemoryOutbox.ReclaimStale | src/tutor_match_meta/repositories/memory_store.py:249-255 | exactly the keys leased before the cut-off are pending again; contents stay |
| SqlOutbox.EveryRowMoves | src/tutor_match_meta/repositories/postgres.py:497-616 | every statement moves every row as the SQL life of a key prescribes |
| SqlOutbox.EveryTimeMoves | src/tutor_match_meta/repositories/postgres.py:497-616 | only a delivery sets a row's delivery time and no later verdict clears it; only the insert sets its kind and text |
| SqlOutbox.SqlRelaysGetWhatWasEnqueued | src/tutor_match_meta/repositories/postgres.py:497-562 | over every run, a row keeps the kind and text of the enqueue that inserted it, and a claim returns exactly those |
| SqlOutbox.OldestFirst | src/tutor_match_meta/repositories/postgres.py:527-541 | a batch keeps the order of the table, and no due row waits in front of a selected one |
| SqlOutbox.SelectionIsMaximal | src/tutor_match_meta/repositories/postgres.py:513-545 | a batch is short of its limit only when every due row is in it |
| SqlOutbox.SqlRunsAreHistories | src/tutor_match_meta/repositories/postgres.py:493-616 | every run of the SQL outbox gives every key a history of that life |
| SqlOutbox.SqlLeasesAreAccountedFor | src/tutor_match_meta/repositories/postgres.py:513-616 | lease accounting for every run of the SQL outbox, late verdicts included |
| SqlOutbox.SqlRefinesMemoryUnderHolders | src/tutor_match_meta/repositories/postgres.py:564-597 | if only lease holders give verdicts, every key's SQL history is an in-memory one, with at most five failures |
| SqlOutbox.PostgresOutbox.Enqueue | src/tutor_match_meta/repositories/postgres.py:497-511 | an absent key becomes pending with no attempts and the message's kind and text; every other key keeps status and content |
| SqlOutbox.PostgresOutbox.ClaimBatch | src/tutor_match_meta/repositories/postgres.py:513-562 | due rows only, up to the limit and short of it only when none is left, returned with the kind and text they hold; exactly they are leased |
| SqlOutbox.PostgresOutbox.MarkDelivered | src/tutor_match_meta/repositories/postgres.py:564-570 | the key, if present, becomes delivered now, with its attempts, whatever it was; every other key keeps its status and delivery time |
| SqlOutbox.PostgresOutbox.MarkFailed | src/tutor_match_meta/repositories/postgres.py:572-588 | the key, if present, counts one more attempt and is pending again, or dead at the fifth, whatever it was; every other key keeps its status |
| SqlOutbox.PostgresOutbox.MarkDead | src/tutor_match_meta/repositories/postgres.py:590-597 | the key, if present, becomes dead whatever it was; every other key keeps its status |
| SqlOutbox.PostgresOutbox.ReclaimStale | src/tutor_match_meta/repositories/postgres.py:599-616 | exactly the keys leased before the cut-off are pending again, and are counted |
| Schedule.WindowFromMinutesRebuilds | src/tutor_match_meta/contracts/schedule.py:106-115 | a window is rebuilt from its two absolute minutes exactly when it does not cross a day |
| Schedule.Merge | src/tutor_match_meta/contracts/schedule.py:172-186 | the merge loop computes the normal form of its windows |
| Schedule.NormalFormIsUnique | src/tutor_match_meta/contracts/schedule.py:131-136 | two sorted, disjoint, non-touching lists with the same minutes are the same list |
| Schedule.NormaliseIsCanonical | src/tutor_match_meta/contracts/schedule.py:131-136 | two lists normalise to the same schedule exactly when they cover the same minutes |
| Schedule.NormaliseFixesNormal | src/tutor_match_meta/contracts/schedule.py:172-186 | a normal list is left as it is |
| Schedule.TotalCountsMinutes | src/tutor_match_meta/contracts/schedule.py:141-143 | the durations of a schedule add up to the number of minutes it covers |
| Schedule.OverlapCountsSharedMinutes | src/tutor_match_meta/contracts/schedule.py:145-157 | the pairwise sum counts every shared minute once |
| Schedule.IntersectionMeaning | src/tutor_match_meta/contracts/schedule.py:159-163 | intersection intersects the minute sets, and overlap equals its total; different timezones are refused |
| Schedule.IntersectionCommutes | src/tutor_match_meta/contracts/schedule.py:159-163 | commutative as a value |
| Schedule.IntersectionAssociates | src/tutor_match_meta/contracts/schedule.py:159-163 | associative as a value |
| Schedule.IntersectionIdempotent | src/tutor_match_meta/contracts/schedule.py:159-163 | idempotent as a value |
| Schedule.ConflictsAreSharedMinutes | src/tutor_match_meta/domain/scheduling.py:314-316 | no conflict is reported exactly when no minute is shared |
| Scheduling.SplitAcrossDays | src/tutor_match_meta/domain/scheduling.py:266-283 | the day-splitting loop ends and yields the pieces of the interval, none crossing midnight |
| Scheduling.SplitDaysMinutes | src/tutor_match_meta/domain/scheduling.py:266-283 | splitting at midnight loses no minute and adds none |
| Scheduling.ConvertTimezone | src/tutor_match_meta/domain/scheduling.py:243-264 | the conversion loop collects the pieces of every shifted window |
| Scheduling.ConversionIsRotation | src/tutor_match_meta/domain/scheduling.py:243-264 | a conversion rotates the minute set modulo a week by the offset difference |
| Scheduling.ConversionsCompose | src/tutor_match_meta/domain/scheduling.py:243-264 | going through a third zone gives the same schedule |
| Scheduling.ConversionRoundTrip | src/tutor_match_meta/domain/scheduling.py:243-264 | there and back is the identical schedule |
| Scheduling.ConversionKeepsTotalsAndOverlap | src/tutor_match_meta/domain/scheduling.py:243-264 | total minutes and pairwise overlap are kept |
| Scheduling.SuggestSlots | src/tutor_match_meta/domain/scheduling.py:286-311 | the loop keeps each day's first window long enough, in day order, up to the limit |
| Scheduling.SuggestionsAreUsable | src/tutor_match_meta/domain/scheduling.py:286-311 | every suggestion is one session long, inside the free minutes, one per day, and no usable day is missed |
| RateLimit.PostgresRateLimitStore.Consume | src/tutor_match_meta/cache/postgres_store.py:171-248 | one statement refills, decides and decrements; it fails closed, and refuses what can never fit |
| RateLimit.LevelRefills | src/tutor_match_meta/cache/postgres_store.py:159-167 | the level a row stands for refills with time, within zero and the capacity |
| RateLimit.ConsumeDecides | src/tutor_match_meta/cache/postgres_store.py:171-230 | a call is granted exactly if the level covers the cost, and lowers it by exactly what it grants |
| RateLimit.WindowBound | src/tutor_match_meta/cache/postgres_store.py:171-248 | the cost granted in any window of any run is at most capacity plus refill times its length |
| RateLimit.DecidesAsTheIdealBucket | src/tutor_match_meta/cache/postgres_store.py:159-248 | every decision is the ideal bucket's |
| RateLimit.FreshKeyDecidesAsTheIdealBucket | src/tutor_match_meta/cache/postgres_store.py:190-205 | for a new key, the ideal bucket that starts full |
| RateLimit.SweepsAreHarmlessExactly | src/tutor_match_meta/cache/postgres_store.py:40-41 | deleting expired rows changes no decision exactly when a bucket fills within its lifetime |
| RateLimit.SweepGrantsTooMuch | src/tutor_match_meta/cache/postgres_store.py:206-216 | otherwise a run in which a sweep turns a refusal into a grant |
| RateLimit.RetryAfterIsExact | src/tutor_match_meta/cache/postgres_store.py:245-248 | on an untouched key a refused caller is granted exactly from the announced wait on |
| RateLimit.NoWaitHelps | src/tutor_match_meta/cache/postgres_store.py:174-178 | without refill, or above the capacity, no wait helps |
| LruCache.InMemoryCache.Get | src/tutor_match_meta/cache/base.py:71-82 | a live entry is returned and becomes the most recent, an expired one is removed, and the counters say which |
| LruCache.InMemoryCache.Set | src/tutor_match_meta/cache/base.py:84-91 | the entry becomes the most recent and the oldest are evicted down to the maximum |
| LruCache.InMemoryCache.Delete | src/tutor_match_meta/cache/base.py:93-94 | no later get answers the key, and every other key answers as before |
| LruCache.InMemoryCache.ClearPrefix | src/tutor_match_meta/cache/base.py:96-100 | exactly the keys with the prefix are gone, and are counted |
| LruCache.StaysBounded | src/tutor_match_meta/cache/base.py:84-91 | no operation exceeds the maximum size or holds a key twice |
| LruCache.RecentEntriesAreHits | src/tutor_match_meta/cache/base.py:59-100 | an entry just set or just hit is a hit until it expires, is removed, or as many other keys as the maximum were touched since |
| LruCache.GetHitsExactly | src/tutor_match_meta/cache/base.py:71-91 | in every timely run, a get hits exactly if an unbounded map has a live entry for the key and fewer entries than the maximum were more recent than it ever since its last set or hit |
| LruCache.HitsByOperationsAlone | src/tutor_match_meta/cache/base.py:59-100 | without running the cache: a live entry of an unbounded map is a hit if, ever since it was set, fewer other keys than the maximum were set or found in that map between its uses |
| LruCache.HeldExactly | src/tutor_match_meta/cache/base.py:84-91 | of the entries an unlimited cache would have, exactly those that stayed recent are held |
| LruCache.OrderIsRecency | src/tutor_match_meta/cache/base.py:59-100 | in every run the order is the order of last set or hit |
| LruCache.RunsAgree | src/tutor_match_meta/cache/base.py:59-100 | in every run, what the cache holds is what an unbounded map with expiry holds |
| TieredCache.PostgresKeyValueStore.Get | src/tutor_match_meta/cache/postgres_store.py:59-77 | the unexpired row's value, counted as hit or miss |
| TieredCache.PostgresKeyValueStore.Set | src/tutor_match_meta/cache/postgres_store.py:79-95 | the row is written with its expiry, unless the lifetime is not positive |
| TieredCache.PostgresKeyValueStore.Delete | src/tutor_match_meta/cache/postgres_store.py:97-105 | no later get answers the key, and every other key answers as before |
| TieredCache.PostgresKeyValueStore.ClearPrefix | src/tutor_match_meta/cache/postgres_store.py:107-118 | the rows the pattern matches are gone, and are counted |
| LikePatterns.ClearsItsPrefixExactly | src/tutor_match_meta/cache/postgres_store.py:107-118 | clearing a prefix in the shared tier deletes exactly the keys that start with it if and only if the prefix has no pattern character |
| LikePatterns.ClearReachesItsKeysExactly | src/tutor_match_meta/cache/postgres_store.py:107-118 | it deletes every key that starts with it exactly if the pattern matches the prefix itself, as it always does without a backslash |
| LikePatterns.BackslashSparesItsOwnKeys | src/tutor_match_meta/cache/postgres_store.py:107-118 | a prefix with a backslash that its own pattern does not match |
| LikePatterns.EscapedPrefixIsExact | src/tutor_match_meta/repositories/postgres.py:101-108 | with the escaping of the name search a pattern matches exactly the texts that start with the prefix, whatever is in it |
| LikePatterns.EscapedTermIsContained | src/tutor_match_meta/repositories/postgres.py:143-155 | a name search for an escaped term finds exactly the names that contain it |
| TieredCache.TieredCache.Get | src/tutor_match_meta/cache/base.py:138-145 | front first, then the shared tier with a shortened backfill |
| TieredCache.TieredCache.Set | src/tutor_match_meta/cache/base.py:147-149 | both tiers, the front for at most 30 seconds |
| TieredCache.TieredCache.Delete | src/tutor_match_meta/cache/base.py:151-153 | both tiers lose the key |
| TieredCache.TieredCache.ClearPrefix | src/tutor_match_meta/cache/base.py:155-158 | the front loses the keys with the prefix and the shared tier those its pattern matches; the shared count is returned |
| TieredCache.GetIsARun | src/tutor_match_meta/cache/base.py:138-145 | an uninterrupted get is a run of the many-container protocol |
| TieredCache.SetIsARun | src/tutor_match_meta/cache/base.py:147-149 | and so is an uninterrupted set |
| TieredCache.DeleteIsARun | src/tutor_match_meta/cache/base.py:151-153 | and a delete |
| TieredCache.ClearIsARun | src/tutor_match_meta/cache/base.py:155-158 | and a clear |
| TieredCache.StepKeeps | src/tutor_match_meta/cache/base.py:123-158 | every await-to-await piece of every operation keeps each tier justified by what was written |
| TieredCache.StalenessIsBounded | src/tutor_match_meta/cache/base.py:123-158 | over every run of any number of containers, a value read was set less than its lifetime plus 30 seconds (plus the backfill lag) ago, and is gone 30 seconds (plus the lag) after being overwritten or removed |
| TieredCache.SharedAnswersExactly | src/tutor_match_meta/cache/postgres_store.py:59-118 | over every run a read of the shared tier answers exactly the last write that reached it, unless removed since or expired |
| TieredCache.SetThenGet | src/tutor_match_meta/cache/base.py:138-149 | a container reads back what it set, for the whole lifetime, whatever size its front has |
| TieredCache.FrontAnswersExactly | src/tutor_match_meta/cache/base.py:138-149 | the front alone answers a set exactly for its lifetime or thirty seconds, whichever is shorter |
| TieredCache.DeletedValueLingers | src/tutor_match_meta/cache/base.py:131-132 | the bound is tight: a run in which a deleted value is served right up to the 30 seconds |
| CachedTutors.CachedTutorRepository.Search | src/tutor_match_meta/repositories/cached_tutors.py:80-99 | a query for one tutor bypasses both tiers; otherwise a refreshed hit, or a fetch that is cached only if it has 1 to 200 candidates |
| CachedTutors.RefreshForgetsTheCachedLabel | src/tutor_match_meta/repositories/cached_tutors.py:138-152 | a pool labelled earlier and refreshed now reads as if labelled now |
| CachedTutors.LabelsByName | src/tutor_match_meta/orchestration/orchestrator.py:421-432 | a refreshed candidate is unknown, fresh, aging or stale exactly by the time since it was synced, and otherwise unchanged |
| CachedTutors.KeysAgreeExactly | src/tutor_match_meta/cache/base.py:171-177 | two queries have one pool key exactly if their digests agree |
| CachedTutors.PoolIsSharedByName | src/tutor_match_meta/repositories/ports.py:50-67 | with a digest that tells them apart, one query is answered from another's entry exactly if they agree in the fields named, lists in any order |
| CachedTutors.InvalidateReachesEveryPool | src/tutor_match_meta/repositories/cached_tutors.py:107-109 | the prefix that invalidation clears covers every pool key of its policy, and unless the policy's name has a backslash the shared tier loses them all |
| CachedTutors.CachedPoolsAreRecent | src/tutor_match_meta/repositories/cached_tutors.py:80-99 | over every run a cached pool was fetched less than 150 seconds (plus two lags) ago by a query with the same key, and less than 30 (plus a lag) after any invalidation |
| CachedTutors.SearchIsARun | src/tutor_match_meta/repositories/cached_tutors.py:80-99 | an uninterrupted search is a run of the system that bound is about |
| CachedTutors.PoolIsSharedExactly | src/tutor_match_meta/repositories/cached_tutors.py:80-99 | of two uncached queries, the second is answered from the first's entry exactly if their pool keys agree and it names no tutor |
| CachedTutors.SameShapeSharesThePool | src/tutor_match_meta/repositories/ports.py:50-67 | queries that differ only in class labels, wanted freshness or list order are answered with one another's pool for two minutes |
| Requirement.BeatsIsAStrictOrder | src/tutor_match_meta/contracts/common.py:122-143 | `beats` is irreflexive, asymmetric and transitive |
| Requirement.BeatsByName | src/tutor_match_meta/contracts/common.py:75-143 | who is trusted more, source by source, and what decides between values of one source |
| Requirement.TrackedMergeAssociatesExactly | src/tutor_match_meta/contracts/common.py:122-143 | merging one field is associative except with an unstamped value between two stamped ones it ties with |
| Requirement.MergedWith | src/tutor_match_meta/contracts/requirement.py:145-175 | the loop over the fields merges every field by its name: which take a truthy newcomer, which the more trusted value, which both lists once each in order, which the larger level, and which stays |
| Requirement.DedupForgetsLeft | src/tutor_match_meta/contracts/requirement.py:163-165 | removing repeats early changes nothing |
| Requirement.MergeAssociatesExactly | src/tutor_match_meta/contracts/requirement.py:145-175 | the whole-record merge is associative exactly when no tracked field has that pattern |
| Requirement.AnyGroupingCollectsTheSame | src/tutor_match_meta/contracts/requirement.py:145-175 | with timestamps, any bracketing of a conversation's records gives what turn-by-turn collection gives |
| Requirement.SurvivorIsUnbeaten | src/tutor_match_meta/contracts/requirement.py:145-175 | the surviving value of a field was given by some turn and is beaten by none that any turn gave |
| Requirement.RankNeverFalls | src/tutor_match_meta/contracts/requirement.py:152-159 | a merge never lowers a field's trust rank |
| Requirement.UsableExactlyIfSomeTurnWas | src/tutor_match_meta/contracts/requirement.py:119-130 | for values the constructors build, a field is usable as a hard filter exactly if some turn gave a usable value |
| Requirement.ConstructedShape | src/tutor_match_meta/orchestration/extraction.py:280-351 | which constructed values are trusted: parsed ones, and lead values of at least 0.75 |
| Requirement.LeadValuesByName | src/tutor_match_meta/orchestration/extraction.py:318-351 | a lead's own confidence is kept between 0.5 and 0.9, taken for 0.6 when unstated, and trusted from 0.75 |
| Requirement.MemoryReplacesExactly | src/tutor_match_meta/orchestration/turn_service.py:920-945 | a remembered value replaces exactly nothing, a guess or default, or a weaker or no later memory |
| Requirement.RememberedByName | src/tutor_match_meta/orchestration/turn_service.py:920-945 | which fact fills which field, with what confidence, and that no other field is remembered |
| Requirement.MemoryKeepsTheRest | src/tutor_match_meta/orchestration/turn_service.py:920-945 | overlaying memory keeps everything else the conversation says |
| Requirement.EscalationFillsGaps | src/tutor_match_meta/orchestration/extraction.py:229-251 | a model's guess never replaces a value of more trust |
| Requirement.GuessesByName | src/tutor_match_meta/orchestration/extraction.py:229-251 | which empty fields take the model's answer, with what confidence; the tutor's gender is never guessed |
| Requirement.EscalationResetsTheTimezone | src/tutor_match_meta/orchestration/extraction.py:229-251 | escalation keeps every plain field except a timezone other than the default, which the extractor is never built with |
| DumpImport.SplitValues | scripts/import_tutor_dump.py:57-98 | the character loop computes the scan of its state machine |
| DumpImport.SplitUndoesPrint | scripts/import_tutor_dump.py:57-98 | the splitter undoes a printer with quoting, escapes, padding and separators, whatever the fields contain |
| DumpImport.SplitDistributesExactly | scripts/import_tutor_dump.py:57-98 | splitting distributes over whatever follows exactly when the first part ends between groups |
| Chunker.CarryTail | src/tutor_match_meta/rag/pipeline.py:151-160 | the carried tail is the longest run of last paragraphs that fits the overlap |
| Chunker.ChunkDocument | src/tutor_match_meta/rag/pipeline.py:111-170 | the loop yields the chunking of the document, with contents and numbers |
| Chunker.ChunkingIsUnique | src/tutor_match_meta/rag/pipeline.py:111-170 | the chunking conditions have exactly one solution |
| Chunker.ChunksAreUnique | src/tutor_match_meta/rag/pipeline.py:111-170 | so only one list of chunks meets the contract of the loop |
| Chunker.ChunksCoverInOrder | src/tutor_match_meta/rag/pipeline.py:111-170 | contiguous ranges that cover the document: starts never go back, ends advance, no gaps |
| Chunker.JoinInParts | src/tutor_match_meta/rag/pipeline.py:122-140 | a chunk's text is its paragraphs with one blank line between |
| Chunker.ChunksAreBounded | src/tutor_match_meta/rag/pipeline.py:151-170 | overlap within its limit, tokens within the larger of target and overlap plus one paragraph |
| Chunker.DroppingOverlapsRebuilds | src/tutor_match_meta/rag/pipeline.py:111-170 | dropping the overlaps gives back the paragraphs |
| RagIndex.LexicalIndex.Ingest | src/tutor_match_meta/rag/pipeline.py:195-240 | validation (rejected exactly without id, title or text, or over two million characters), redaction, deduplication and indexing of every chunk in order, with the report's counts |
| RagIndex.LexicalIndex.SupersedeDocument | src/tutor_match_meta/rag/pipeline.py:242-253 | exactly the passages of the document's other versions go and are counted, with their checksums and lengths; every other stays as it was |
| RagIndex.IngestedOrDuplicate | src/tutor_match_meta/rag/pipeline.py:205-232 | under new ids every passage is live afterwards as prepared or a duplicate, nothing else changes, and the report counts the former |
| RagIndex.NoPersonalDataIsIndexed | src/tutor_match_meta/rag/pipeline.py:205-217 | over every run of ingestions and supersessions, a live passage is free of personal data or holds a redaction under its own checksum |
| RagIndex.AddKeepsConsistencyExactly | src/tutor_match_meta/rag/pipeline.py:221-230 | the checksum and length maps stay in step with the live passages exactly for duplicates and new ids |
| RagIndex.BarredExactly | src/tutor_match_meta/rag/pipeline.py:221-230 | adding a passage leaves a text that counts as a duplicate without a live passage exactly if it replaces that text under its own id |
| RagIndex.ForgottenTextStaysBarred | src/tutor_match_meta/rag/pipeline.py:195-253 | that text is barred for good: after any later ingestions and supersessions no live passage has it, and adding it changes nothing |
| RagIndex.RemovalIsConsistent | src/tutor_match_meta/rag/pipeline.py:242-253 | superseding keeps the maps in step |
| RagIndex.AddKeepsCounts | src/tutor_match_meta/rag/pipeline.py:227-228 | term counts are at least the number of live passages with the term, and exact for new ids |
| RagIndex.SupersedeOvercountsExactly | src/tutor_match_meta/rag/pipeline.py:242-253 | after superseding a count is right exactly if no removed passage had the term |
| RagIndex.FreshIngestKeepsAll | src/tutor_match_meta/rag/pipeline.py:195-232 | ingesting under new ids keeps every map in step and every count exact |
| RagIndex.Search | src/tutor_match_meta/rag/pipeline.py:255-298 | returns live passages the caller may see and that score, best first within both limits, and leaves one out only if all places are taken or it no longer fits; on any index whose passages sit under their own ids |
| RagIndex.OwnIdsStay | src/tutor_match_meta/rag/pipeline.py:221-253 | which ingesting and superseding never break |
| RagIndex.RankingIsUnique | src/tutor_match_meta/rag/pipeline.py:283-286 | there is one ranking, so the answer does not depend on the order of ingestion |
| RagIndex.AnswerIsUnique | src/tutor_match_meta/rag/pipeline.py:255-298 | a search has one answer |
| RagIndex.SelectionIsSoundAndGreedy | src/tutor_match_meta/rag/pipeline.py:286-298 | within both limits, scoring passages only, and a scoring one is left out only if it cannot be added |
| Embeddings.InMemoryEmbeddingLedger.Record | src/tutor_match_meta/rag/embeddings.py:129-132 | a chunk with the id is seen afterwards exactly under this checksum and model, every other id as before |
| Embeddings.EmbedChanged | src/tutor_match_meta/rag/embeddings.py:200-255 | refusals, ledger and batches, with failing batches left unrecorded and the report adding up |
| Embeddings.CountsAddUp | src/tutor_match_meta/rag/embeddings.py:214-228 | every chunk considered is refused, unchanged or pending |
| Embeddings.EmbeddedByPosition | src/tutor_match_meta/rag/embeddings.py:230-255 | what is embedded and recorded is exactly the pending chunks whose place in a batch got a vector |
| Embeddings.OnlyWhatIsWanted | src/tutor_match_meta/rag/embeddings.py:214-228 | nothing refused and nothing the ledger has under its checksum and model is sent |
| Embeddings.NextRunWantsExactly | src/tutor_match_meta/rag/embeddings.py:200-255 | after a run of any outcome, exactly which chunks the next run wants |
| Embeddings.SecondRunIsFreeExactly | src/tutor_match_meta/rag/embeddings.py:200-255 | when all batches succeed, a second run embeds nothing exactly if everything embedded carries a checksum, as every chunk the pipeline builds does |
| Base64.DecodeUndoesEncode | src/tutor_match_meta/orchestration/continuation.py:174-179 | every byte sequence reads back from its unpadded URL-safe text |
| Base64.EncodeUndoesDecodeExactly | src/tutor_match_meta/domain/identity.py:42-60 | a text that decodes is canonical exactly when its spare bits are clear |
| Base64.CharsFollowTheAlphabet | src/tutor_match_meta/domain/identity.py:34-39 | the characters are the URL-safe alphabet of RFC 4648 in its order |
| Base64.GroupsAreNumbers | src/tutor_match_meta/domain/identity.py:34-39 | three bytes and their four digits are one number |
| Base64.KnownTexts | src/tutor_match_meta/orchestration/continuation.py:174-179 | the vectors of section 10 of RFC 4648, without padding |
| Utf8.DecodeUndoesEncode | src/tutor_match_meta/domain/identity.py:34-39 | every text reads back from its bytes |
| Utf8.EncodeUndoesDecode | src/tutor_match_meta/domain/identity.py:51-54 | the decoder is strict: what it accepts is the encoding of what it returns |
| Utf8.KnownBytes | src/tutor_match_meta/domain/identity.py:34-39 | the examples of section 7 of RFC 3629 |
| Text.StripTrims | src/tutor_match_meta/domain/identity.py:42-60 | trimming takes white space off both ends and nothing else |
| Identity.RefsRoundTrip | src/tutor_match_meta/domain/identity.py:34-60 | every non-empty id reads back from its public reference |
| Identity.RefsAreUnique | src/tutor_match_meta/domain/identity.py:34-39 | different ids have different references |
| Identity.NamesExactly | src/tutor_match_meta/domain/identity.py:42-60 | a text names an id exactly if it decodes to the id's bytes and the suffix |
| Identity.SecondRefExistsExactly | src/tutor_match_meta/domain/identity.py:42-60 | another text names the same id exactly if the bytes do not fill whole groups of three |
| Continuation.VerifyReadsIssue | src/tutor_match_meta/orchestration/continuation.py:86-157 | verifying an issued token ends in the check of exactly the issued claim |
| Continuation.IssuedTokensByName | src/tutor_match_meta/orchestration/continuation.py:86-157 | which answer an issued token gets, for every question and time, by name |
| Continuation.ResumesExactly | src/tutor_match_meta/orchestration/continuation.py:118-157 | it is accepted exactly for the same non-empty ASCII conversation reference, strictly before expiry |
| Continuation.AcceptedExactlyIfIssued | src/tutor_match_meta/orchestration/continuation.py:118-157 | if only issuing signs payloads, any token at all is accepted exactly if it is an issued claim's own token and that claim passes the check |
| Continuation.AcceptedIsSignedAndCurrent | src/tutor_match_meta/orchestration/continuation.py:118-157 | whatever is accepted was signed, is current and belongs to the asking conversation |
| Handoffs.GraphIsAcyclic | src/tutor_match_meta/integrations/agents/graph.py:25-63 | no walk along allowed edges repeats an agent or has more than three edges |
| Handoffs.SendersByName | src/tutor_match_meta/integrations/agents/graph.py:25-63 | by receiver, who may hand over to an agent |
| Handoffs.ReceiversByName | src/tutor_match_meta/integrations/agents/graph.py:25-63 | and that those may |
| Handoffs.ReachableEnvelopes | src/tutor_match_meta/contracts/envelope.py:120-161 | every envelope reached from a root goes from where the last one went to where its hop says, has visited its agents without repeats, the root's sender first and one more than its hops, at most three, and keeps its root's trace |
| Handoffs.HopsAreRefusedExactly | src/tutor_match_meta/contracts/envelope.py:134-144 | exactly when a next hop from an envelope reached from a root is refused; the hop budget never is the reason |
| Handoffs.KeyDeterminesPath | src/tutor_match_meta/contracts/envelope.py:157-157 | from one root, equal idempotency keys mean equal paths |
| BuildLocks.StepKeeps | src/tutor_match_meta/bootstrap.py:462-532 | every resumption, exception and cancellation keeps locks, queues and stored services in agreement |
| BuildLocks.BuiltOnce | src/tutor_match_meta/bootstrap.py:462-631 | over every interleaving each service is stored at most once, all who succeed get the same one, and the handoff service sits on the one turn service |
| BuildLocks.NeverDeadlocked | src/tutor_match_meta/bootstrap.py:70-105 | while a coroutine is unfinished, the event loop can resume one |
| BuildLocks.EveryRunFinishes | src/tutor_match_meta/bootstrap.py:587-631 | every run ends within four steps per coroutine, counting resumptions that touch a lock and not every suspension inside a builder, and one that cannot go on has finished all |

## Left out

- The requirement, decision and kill-switch stores, abuse controls, deeds, analytics and metrics: a turn's use of them is reduced to the path it takes and the places it may raise. Requirement rows are saved before and outside the conversation's compare-and-set (`turn_service.py:361-364`); the loss that allows between two workers is not modelled.
- Matching, scoring, ranking of tutors, explanations, the output guard, prompts and the regex parsers: arbitrary inputs to the model.
- Delivery.NextRowIsAMonthLater: workers, relays and the cleanup read one clock; drift between them is not modelled.
- Relays act on reply rows in the protocol; other kinds of outbox rows have their own keys and are left out of it.
- TurnProtocol.OneWorkerPerKey: assumes that no claim expires while its worker is in its turn; the claim's lifetime is seven days and the repository relies on the same.
- TurnService.TurnService.Handle: is stated for the in-memory stores and an uninterrupted call; interleavings and the SQL semantics are in the protocol. The author of a reply row is protocol history; the outbox is tied to the protocol by every key's status and text. That a recipient must be an E.164 number is left out: a refused one is an exception after the save.
- The outbox column for the last error, and the relay loop itself: relays are arbitrary callers.
- The order in which PostgreSQL picks among equally old rows, and rows skipped because another transaction holds their lock: a batch is claimed in one step, in table order.
- Daylight saving, seconds inside windows and unknown zone rules: a zone is a constant whole-minute offset, an unknown zone an error.
- Scheduling.SuggestSlots: the session length is at least one minute and the limit not negative; the callers pass positive constants.
- Floating point: tokens, costs, confidences and times are reals, and `now()` never goes back within a run.
- RateLimit.ConsumeDecides: costs are not negative; the callers pass positive constants.
- TieredCache.StalenessIsBounded: both tiers read one clock; the model does not add the drift between a container and the database. A shared read that fails is a miss, and a failed write may still fill the front, as in the code.
- CachedTutors.CachedPoolsAreRecent: the digest of a query is any function of the parts the fingerprint joins, so collisions of the joined text or of the truncated hash are allowed but not analysed.
- Requirement.MergedWith: values are texts, a plain value carries its own truth, flags and the turn count are levels; the validation that pydantic repeats on the merged record is not modelled.
- Chunker.ChunkDocument: starts from the paragraphs; the regular expression that splits the text is not modelled. The overlap is not negative.
- RagIndex.Search: the BM25 score, tokenising, hashing and redaction are arbitrary functions. The vector rerank is left out.
- Embeddings.EmbedChanged: the refusal rules, the hash and the price per token are arbitrary functions; the SQL ledger's swallowed errors are left out.
- Identity.RefsRoundTrip: texts hold Unicode scalar values only; a lone surrogate, which Python refuses to encode, cannot occur.
- Continuation.VerifyReadsIssue: the MAC is any function of the payload, JSON any codec that reads back what it wrote, and lenient base64 any decoder that agrees with the strict one where that accepts. A signed payload that is not a JSON object is left out.
- Handoffs.ReachableEnvelopes: of the field limits only the idempotency key's is modelled; payloads and entities are carried unchanged and left out.
- BuildLocks.BuiltOnce: one event loop; building on two loops at once, other cached singletons, and the rule that drops a loop's locks with it are left out. The coroutines are a transition system rather than a class, because what is proved is about their interleavings.
