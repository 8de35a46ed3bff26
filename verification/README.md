# A verified model of the L850-GL bridge

This project models the parts of the L850-GL ModemManager bridge and of its LuCI pages in
which a mistake would be hard to see: an asynchronous protocol that rewrites a modem's cell
lock and resets it, six kinds of operations that share one modem, an SMS cache fed by signals
and lists, retry tokens that keep a message from being sent twice, parsers that cut their
input in place, and two validators in a row. `dafny verify dfyconfig.toml` checks everything.

How the modules follow the program:

- `MutationPolicy`, `Coordinator`, `CoordinatorRuns`, `CoordinatorTheorems` give the cell-lock
  mutation coordinator as functions from state to state, with a trace of everything it
  dispatched or learned, and prove what every run keeps. `CoordinatorObjects` is the same
  coordinator as an object with fields and callbacks, proved against those functions.
  `CoordinatorOutcomes` says exactly what each callback decides, `CoordinatorSuccess` that every
  valid request can succeed, and `CoordinatorTexts` feeds the coordinator with the parsers.
- `Arbiter` and `ArbiterExclusion` interleave all operations, modem removals and replacements
  and prove mutual exclusion, exactly as far as it goes; `ArbiterOverlap` is the history in
  which it fails. `ArbiterAdmission` is what is admitted when, `ArbiterLifetimes` what stays over.
- `SmsCache`, `SmsCacheObject`, `SmsCacheRuns`, `SmsCacheEffects` are the message cache as values,
  as an object, over whole histories and event by event. `Stamps` is the order of messages,
  `SmsPaging` the listing and the browser's paging loop, `SmsListing` that loop over a cache that
  changes meanwhile.
- `SmsDedupe`, `SmsSend`, `SmsRetries`, `SmsDigest` are the token queue, the send protocol, what a
  retry is told and the framing of the content digest.
- `CText`, `Numerals` and `TextForms` are in-place text cutting, numeral loops and how texts may
  be written. `EarfcnTable`, `CarrierGrammar`, `CarrierParser`, `CarrierTheorems`,
  `CarrierReports`, `CarrierAcceptance` are the GTCAINFO parser; `CellGrammar`, `CellParser`,
  `CellReports` the XMCI parser; `LockTypes`, `LockGrammar`, `LockParser`, `LockReports` the NVM
  report, the set command and the matcher.
- `RadioPolicy`, `NetworkBinding`, `CarrierCache` are band selection, the netifd mode writer
  and the overview page's last-known-good cache.

What the environment decides: replies, errors (classified as uncertain, unclassified or
definite), timer and signal order, the clock, secure random draws, hardware attestation (a
boolean of the modem object), and whether libuci calls succeed. Timers never fire early and a
pending command calls back at most once. Channel numbers follow section 5.7.3 of 3GPP TS
36.101, the PCI range section 6.11 of 3GPP TS 36.211, RSRP and RSRQ codes sections 9.1.4 and
9.1.7 of 3GPP TS 36.133.

Where the code does less than a reader may expect, the model follows the code:

- The lock write is not guarded by the timeout and transport flags: a probe answered in spite
  of both still dispatches it (`CoordinatorTheorems.WriteDispatchedIff`).
- Adoption of a replacement tests only the busy flag, so exclusion fails exactly when it adopts
  an object that a scan or query is using (`ArbiterExclusion.StepExcludesIff`,
  `ArbiterOverlap.ExclusionCanFail`); one live object per hardware slot rules that out
  (`ArbiterExclusion.AlwaysExclusive`). A status read is not excluded by the lock
  (`ArbiterExclusion.StatusIgnoresLock`).
- Admission of a created message ignores tombstones (`SmsCacheRuns.StepTombstone`,
  `SmsListing.TombstonedCanBeCached`); the next list drops it again
  (`SmsCacheRuns.ListDropsTombstoned`).
- A new messaging epoch with a new proxy keeps the status it finds, so an inventory that was ready
  is served empty, under a new epoch and revision, until the first list (`SmsCacheEffects.ServesIff`).
- `l850gl_modem_admit_sms`, which has no caller, would replace the proxy of a cached message
  without a new revision (`SmsListing.ViewCanChange`); admission under a reserved ID, the only
  kind the bridge uses, never does (`SmsListing.StepShowsIff`).
- The NVM and XMCI parsers reject an empty or oversized response before clearing their output
  (`LockParser.LockOutput.Parse`, `CellParser.ScanOutput.Parse`); the GTCAINFO parser clears first.
- The request `any` still needs an advertised band and an allowed family
  (`RadioPolicy.SelectionIff`); a mode list may end with a bar (`NetworkBinding.TrailingBarIsSafe`).

## Model

| member | source | states |
|---|---|---|
| `MutationPolicy.NvmVerifier.Observe` | l850gl-mm-bridge/src/l850_mutation_policy.c:33-58 | The verifier updates its streak in place and decides exactly as the pure streak rule says; the stage does not change. |
| `MutationPolicy.StreakCountsTrailingMatches` | l850gl-mm-bridge/src/l850_mutation_policy.c:33-58 | Over every history the streak is the number of matches the history ends with, capped at what the stage requires. |
| `MutationPolicy.ReadyExactlyOnStreak` | l850gl-mm-bridge/src/l850_mutation_policy.c:10-58 | Ready is decided exactly when the last two observations (before the reset) or the last one (after it) are matches, with no mismatch between them. |
| `CoordinatorRuns.StepKeepsInv` | l850gl-mm-bridge/src/ubus_glib.c:5192-5619 | Every callback of every run keeps the fields of the operation in agreement with its trace (order of commands and observations, timing, flags, single continuation) and strictly lowers the bound on callbacks still to come. |
| `CoordinatorRuns.BeginKeepsInv` | l850gl-mm-bridge/src/ubus_glib.c:5632-5750 | A new operation satisfies that invariant with a budget of 194 callbacks. |
| `CoordinatorTheorems.EveryRunIsSafe` | l850gl-mm-bridge/src/ubus_glib.c:5192-5619 | Every run from the start of an operation: at most one lock write and one reset, a reset only when earned, a verified report only with every stage behind it, at most 194 callbacks. |
| `CoordinatorTheorems.AtMostOneWriteAndReset` | l850gl-mm-bridge/src/ubus_glib.c:5236-5255 | No trace of a run contains two lock writes or two resets. |
| `CoordinatorTheorems.ResetIsEarned` | l850gl-mm-bridge/src/ubus_glib.c:5543-5607 | A reset goes to the still valid original modem, with no timeout or transport loss recorded, in the callback that saw the second of the first two consecutive matching reads, which were at least a second apart, and before the ten seconds after the acknowledgement are over. |
| `CoordinatorTheorems.VerifiedMeansEveryStage` | l850gl-mm-bridge/src/ubus_glib.c:5487-5619 | Every verified report has behind it, in order: parsed probe, acknowledged write, two consecutive matching reads, one earned reset, adoption of an attested other object of another generation on the same slot, registration, a matching post-reset read and, for a set, the requested serving cell. |
| `CoordinatorTheorems.FlagsTellTrace` | l850gl-mm-bridge/src/ubus_glib.c:5065-5092 | The flags that failures report say exactly whether the write was dispatched, acknowledged and followed by a reset. |
| `CoordinatorTheorems.RunIsBounded` | l850gl-mm-bridge/src/ubus_glib.c:5367-5485 | Any run, however timers, timeouts, disconnections and modem changes interleave, has at most 194 callbacks (90 reprobe polls, 60 registration polls and 10 reads per NVM stage included) and keeps the invariant. |
| `CoordinatorTheorems.PhaseNeverDecreases` | l850gl-mm-bridge/src/ubus_glib.c:5181-5320 | No callback takes a live operation back to an earlier phase. |
| `CoordinatorTheorems.OneContinuation` | l850gl-mm-bridge/src/ubus_glib.c:5025-5063 | Between callbacks a live operation has exactly one of a pending command and an armed timer; an ended one accepts no callback, so it is completed once. |
| `CoordinatorTheorems.StepKeepsReply` | l850gl-mm-bridge/src/ubus_glib.c:5049-5063 | The ending callback replies exactly if the request is still deferred and the bus is up; after a transport loss nothing is replied. |
| `CoordinatorTheorems.WriteDispatchedIff` | l850gl-mm-bridge/src/ubus_glib.c:5696-5730 | A probe reply dispatches the write exactly when it is clean and parsed and the original is valid; timeout and transport flags play no part. |
| `CoordinatorTheorems.WriteMayFollowTransportLoss` | l850gl-mm-bridge/src/ubus_glib.c:5696-5730 | Concrete run in which the write is dispatched after both a recorded timeout and a lost transport. |
| `CoordinatorOutcomes.VerifiedIff` | l850gl-mm-bridge/src/ubus_glib.c:5487-5619 | From any state of a run, a callback ends the operation verified if and only if it is a post-reset read in time that shows the cleared lock (for a clear), or a scan on supported bands whose last serving cell has the requested channel and identity and the table's band (for a set), while the replacement stands and nothing casts doubt on the answer. |
| `CoordinatorSuccess.EveryRequestCanSucceed` | l850gl-mm-bridge/src/ubus_glib.c:5632-5750 | For every valid request and every free, registered object that comes back on the slot there is a run from the start of the operation that ends with the success of that request. |
| `CoordinatorOutcomes.ProbeDecides` | l850gl-mm-bridge/src/ubus_glib.c:5696-5730 | The probe reply ends the operation with device_gone, the normalized error or unsupported_protocol, or sends the write, each exactly under its condition. |
| `CoordinatorOutcomes.SetDecides` | l850gl-mm-bridge/src/ubus_glib.c:5286-5320 | The write reply ends it with outcome_unknown, the normalized error or malformed_response, or starts the reads with ten seconds to go, each exactly under its condition. |
| `CoordinatorOutcomes.FirstReadsDecide` | l850gl-mm-bridge/src/ubus_glib.c:5543-5607 | A read before the reset fails with one of three codes, sends the reset on the second match in a row in time, or waits one second, each exactly under its condition. |
| `CoordinatorOutcomes.ResetDecides` | l850gl-mm-bridge/src/ubus_glib.c:5192-5234 | The reset reply fails, or starts the search with 45 seconds to go unless the error is a definite one, each exactly under its condition. |
| `CoordinatorOutcomes.ReprobeDecides` | l850gl-mm-bridge/src/ubus_glib.c:5410-5457 | A search poll fails as ambiguous, busy or timed out, waits half a second, or adopts the one free object and starts the reads or the wait for registration, each exactly under its condition. |
| `CoordinatorOutcomes.RegistrationDecides` | l850gl-mm-bridge/src/ubus_glib.c:5458-5480 | A registration poll fails, times out, starts the reads or waits one second, each exactly under its condition. |
| `CoordinatorOutcomes.ReadPollDecides` | l850gl-mm-bridge/src/ubus_glib.c:5367-5409 | A read timer fails or sends the next read, each exactly under its condition. |
| `CoordinatorOutcomes.LastReadsDecide` | l850gl-mm-bridge/src/ubus_glib.c:5543-5619 | A read after the reset fails with one of three codes, verifies a clear, starts the scan of a set or waits one second, each exactly under its condition. |
| `CoordinatorOutcomes.CellDecides` | l850gl-mm-bridge/src/ubus_glib.c:5487-5541 | The scan reply fails with outcome_unknown or verification_mismatch, or verifies the set with that cell, each exactly under its condition. |
| `CoordinatorTheorems.StepLocks` | l850gl-mm-bridge/src/ubus_glib.c:5011-5047 | A callback leaves both modem locks alone, takes the free lock of the object it adopts, or ends the operation and releases what it holds. |
| `CoordinatorTexts.VerifiedTexts` | l850gl-mm-bridge/src/ubus_glib.c:5487-5619 | In any run whose callbacks are given what the parsers make of the answered texts, a verified report for a valid request has behind it, in this order, two texts before the reset and one after it whose lines render exactly the request, and for a set a scan text whose one serving cell is the requested one. |
| `CoordinatorTexts.StepAdds` | l850gl-mm-bridge/src/ubus_glib.c:5192-5619 | No callback rewrites the trace; a reading can only be the first event it adds, and it says what the answer of that very callback said. |
| `CoordinatorObjects.MutationOperation.ProbeReady` | l850gl-mm-bridge/src/ubus_glib.c:5696-5730 | The object's probe reply callback does to its fields, its verifier and the locks of its modem objects exactly what the transition function does to their values, so the run theorems hold of the object; phases that use the replacement always have one. |
| `CoordinatorObjects.MutationOperation.SetReady` | l850gl-mm-bridge/src/ubus_glib.c:5286-5320 | The object's write reply callback does to its fields, its verifier and the locks of its modem objects exactly what the transition function does to their values, so the run theorems hold of the object; phases that use the replacement always have one. |
| `CoordinatorObjects.MutationOperation.ResetReady` | l850gl-mm-bridge/src/ubus_glib.c:5192-5234 | The object's reset reply callback does to its fields, its verifier and the locks of its modem objects exactly what the transition function does to their values, so the run theorems hold of the object; phases that use the replacement always have one. |
| `CoordinatorObjects.MutationOperation.NvmReady` | l850gl-mm-bridge/src/ubus_glib.c:5543-5619 | The object's NVM read reply callback does to its fields, its verifier and the locks of its modem objects exactly what the transition function does to their values, so the run theorems hold of the object; phases that use the replacement always have one. |
| `CoordinatorObjects.MutationOperation.CellReady` | l850gl-mm-bridge/src/ubus_glib.c:5487-5541 | The object's serving-cell reply callback does to its fields, its verifier and the locks of its modem objects exactly what the transition function does to their values, so the run theorems hold of the object; phases that use the replacement always have one. |
| `CoordinatorObjects.MutationOperation.Poll` | l850gl-mm-bridge/src/ubus_glib.c:5367-5485 | The object's poll timer callback does to its fields, its verifier and the locks of its modem objects exactly what the transition function does to their values, so the run theorems hold of the object; phases that use the replacement always have one. |
| `CoordinatorObjects.MutationOperation.Complete` | l850gl-mm-bridge/src/ubus_glib.c:5011-5063 | Ending the operation records one outcome, drops its continuation and releases both modems with the cooldown that a dispatched write earns. |
| `CoordinatorObjects.MutationOperation.constructor` | l850gl-mm-bridge/src/ubus_glib.c:5632-5750 | Starting the operation locks the modem and leaves the probe pending. |
| `CoordinatorObjects.MutationOperation.FindReplacement` | l850gl-mm-bridge/src/ubus_glib.c:5337-5365 | The counting loop over the snapshot gives the pure search result: nobody, the one match, or ambiguous at the second match. |
| `CoordinatorObjects.MutationOperation.InspectCells` | l850gl-mm-bridge/src/ubus_glib.c:5512-5524 | The scan loop accepts exactly cells on supported bands and returns the last serving one. |
| `CoordinatorObjects.SearchIsExact` | l850gl-mm-bridge/src/ubus_glib.c:5337-5365 | Nobody, one and ambiguous mean exactly no match, exactly one match and at least two, in any order of the snapshot. |
| `CoordinatorObjects.SearchAnswersWorld` | l850gl-mm-bridge/src/ubus_glib.c:5337-5365 | Over a snapshot of the live modems the search gives the answer that the arbitration model lets a poll see. |
| `ArbiterExclusion.AdmittedIsIdle` | l850gl-mm-bridge/src/ubus_glib.c:2826-2866 | Whatever admission a modem passes, no operation is using it, its lock is free and no cell-lock change is under way on its slot. |
| `ArbiterExclusion.StepExcludesIff` | l850gl-mm-bridge/src/ubus_glib.c:5367-5430 | From any state whose locks and users fit together, a step leaves the modems exclusive if and only if it is not the poll that adopts an idle-looking object which another operation is using; otherwise locks and users still fit together. |
| `ArbiterExclusion.ExclusiveIff` | l850gl-mm-bridge/src/ubus_glib.c:5367-5430 | Every state of a history up to a point is exclusive if and only if no step before it adopts an object in use, whatever objects share a slot. |
| `ArbiterOverlap.ExclusionCanFail` | l850gl-mm-bridge/src/ubus_glib.c:5421-5430 | A history from the empty bridge (two objects on one slot, a scan on one, a cell-lock change on the other up to its reset) reaches a state in which the scanned object has two users, because adoption tests only the busy flag. |
| `ArbiterExclusion.StepKeepsWorld` | l850gl-mm-bridge/src/ubus_glib.c:3905-3942 | Requests, completions, callbacks, timeouts, disconnections, removals and replacements all keep the whole invariant, and none adopts an object in use, while no two live objects share a slot. |
| `ArbiterExclusion.AlwaysExclusive` | l850gl-mm-bridge/src/ubus_glib.c:3705-3767 | In every state of every history with one live object per slot: at most one SMS change, band/mode change, cell-lock change, scan, carrier query or voltage query per modem object, and busy flag, kind and cancellable agree with each other and with the holder. |
| `ArbiterExclusion.ReleasedByOwner` | l850gl-mm-bridge/src/ubus_glib.c:5011-5047 | A lock disappears only in the step in which the operation that holds it ends, and is then free; no assumption on slots is made. |
| `ArbiterAdmission.QuietMinute` | l850gl-mm-bridge/src/ubus_glib.c:4998-5009 | In any history, for a minute after a dispatched cell-lock change ended, neither of its modem objects admits another cell-lock or band/mode change. |
| `ArbiterAdmission.TenSeconds` | l850gl-mm-bridge/src/ubus_glib.c:3214-3285 | In any history, for ten seconds after a band/mode change started or ended, its modem admits neither a band/mode nor a cell-lock change. |
| `ArbiterAdmission.CoolingIff` | l850gl-mm-bridge/src/ubus_glib.c:3214-3222 | At any moment a modem cools down if and only if an earlier event set a later deadline for it: start or end of a band/mode change, end of a dispatched cell-lock change, and nothing else. |
| `ArbiterAdmission.AdmissionIff` | l850gl-mm-bridge/src/ubus_glib.c:2826-2866 | In every history without an overlap each kind of request is admitted if and only if the object is live and attested, the generation is right, no operation uses it and no cell-lock change its slot (a status read minds queries and the slot only), and for a change no deadline is still to come. |
| `ArbiterLifetimes.TooLateToVerify` | l850gl-mm-bridge/src/ubus_glib.c:5094-5125 | In every history a change whose time ran out, or whose caller was lost, never ends verified, and a lost caller is never answered. |
| `ArbiterLifetimes.RemovedNeverAdmits` | l850gl-mm-bridge/src/bridge.c:196-208 | In every history a removed modem object admits nothing any more. |
| `ArbiterLifetimes.NeverOver32` | l850gl-mm-bridge/src/bridge.c:985-988 | In every history at most 32 modem objects live. |
| `ArbiterExclusion.VerifiedInEveryHistory` | l850gl-mm-bridge/src/ubus_glib.c:5094-5125 | Every cell-lock change that any history of the whole bridge reports as verified passed every stage; no assumption on slots is made. |
| `ArbiterExclusion.GenerationsStayDistinct` | l850gl-mm-bridge/src/bridge.c:957-1022 | In every history no generation number is given to two modem objects and none exceeds 32 bits. |
| `ArbiterExclusion.StatusIgnoresLock` | l850gl-mm-bridge/src/ubus_glib.c:3905-3942 | While an SMS change holds a modem, a status read is admitted exactly as if it did not: its admission never looks at the busy flag. |
| `SmsCacheObject.MailboxObject.NewId` | l850gl-mm-bridge/src/bridge.c:564-580 | Up to eight draws, the first unused one is taken, a failed draw ends the attempt; an ID is returned only if no cached, additional or reserved entry has it. |
| `SmsCacheObject.MailboxObject.Build` | l850gl-mm-bridge/src/bridge.c:755-802 | The loop over the sorted list builds exactly the paths of the first 1,024 eligible messages, with distinct unreserved IDs, old IDs kept, and tracks tombstones met and truncation; it gives up only if eight draws in a row from a position it reached gave no free ID. |
| `SmsCacheObject.MailboxObject.ListReady` | l850gl-mm-bridge/src/bridge.c:723-817 | A list reply is ignored when stale, empties the cache when the call failed or when the draws for an ID it needed all failed, and in every other case installs the list; a dirty mailbox asks again at once. |
| `SmsCacheObject.MailboxObject.QuerySms` | l850gl-mm-bridge/src/bridge.c:820-839 | A refresh dispatches a list call exactly when the modem is live with messaging and none is pending; otherwise it sets the dirty bit. |
| `SmsCacheObject.MailboxObject.SmsAdded` | l850gl-mm-bridge/src/bridge.c:849-863 | An Added signal lifts the tombstone of its path, bumps the revision and asks for a list. |
| `SmsCacheObject.MailboxObject.SmsDeleted` | l850gl-mm-bridge/src/bridge.c:865-885 | A Deleted signal tombstones its path while there is room, drops it from the cache with a new revision and asks for a list. |
| `SmsCacheObject.MailboxObject.AdmitSms` | l850gl-mm-bridge/src/bridge.c:621-669 | A created message is cached under its reserved ID or the first free draw, with the branches for a known path, a full cache and draws that all fail, and an ID is drawn exactly when one is needed. |
| `SmsCacheObject.MailboxObject.ReserveId` | l850gl-mm-bridge/src/bridge.c:582-595 | On a live modem the first free of eight draws is reserved, none only if all of them fail; nothing else changes. |
| `SmsCacheObject.MailboxObject.ReconcileMessaging` | l850gl-mm-bridge/src/bridge.c:887-932 | A new epoch drops everything tied to the old proxy and asks for a list, except at the last generation, where messaging is given up. |
| `SmsCache.ListGivesNewest` | l850gl-mm-bridge/src/bridge.c:755-810 | After a successful list of distinct paths the cache holds exactly the valid, untombstoned messages that fewer than 1,024 others precede, none left out being later than one kept; truncated is set and the status says so exactly when there were more; every path kept keeps its ID and new ones get IDs no path had. |
| `SmsCacheRuns.NoRefreshIsLost` | l850gl-mm-bridge/src/bridge.c:820-847 | In every reachable state at most one list call per messaging generation is in flight, dirty implies pending, and when nothing is pending on a live modem the last list that counted was sent no earlier than the last refresh request, across epochs and stale replies. |
| `SmsCacheRuns.IdsStayDistinct` | l850gl-mm-bridge/src/bridge.c:564-669 | In every reachable state cached IDs are pairwise distinct and disjoint from reserved IDs, and cache and tombstones hold at most 1,024 paths. |
| `SmsCacheRuns.SameRevisionSameCache` | l850gl-mm-bridge/src/bridge.c:491-497 | Two moments at which listings are served with the same revision below saturation have the same map from paths to IDs. |
| `SmsCacheEffects.RevisionCounts` | l850gl-mm-bridge/src/bridge.c:491-497 | In every history the revision is the number of events that changed the inventory (which ones is spelled out), until it saturates. |
| `SmsCacheEffects.ServesIff` | l850gl-mm-bridge/src/bridge.c:820-847 | Listings are served after an event exactly as stated: only an installed list makes the cache serve; a failed list or draw, removal and the loss of messaging stop it; a new epoch with a new proxy leaves it as it finds it. |
| `SmsCacheEffects.EpochStarts` | l850gl-mm-bridge/src/bridge.c:887-932 | A new epoch drops cache, reservations, tombstones and flags and asks the new proxy for a list; the last generation gives messaging up. |
| `SmsCacheEffects.AdmitLeaves` | l850gl-mm-bridge/src/bridge.c:621-669 | An admission caches the message under its reserved ID, or a drawn one without, and uses the reserved ID up; a full cache is marked, a message without any ID empties the cache. |
| `SmsCacheRuns.SilentClear` | l850gl-mm-bridge/src/bridge.c:659-664 | The failure path that empties the cache without a new revision also stops it from serving. |
| `SmsCacheRuns.TombstoneHolds` | l850gl-mm-bridge/src/bridge.c:768-808 | From a tombstoned state on, until an Added signal for the path, a new epoch or a counting list that omits it, the path stays tombstoned, through admissions at that path too, and every list that counts leaves it uncached, including one in flight when it was deleted. |
| `SmsCacheRuns.StepTombstone` | l850gl-mm-bridge/src/bridge.c:621-885 | Per event: unless it lifts the tombstone, the tombstone stays; a counting reply leaves the path uncached; and an uncached tombstoned path enters the cache if and only if a message created there is admitted to a live messaging modem with room, under a reserved or drawn ID. |
| `SmsCacheRuns.CachedWhileTombstoned` | l850gl-mm-bridge/src/bridge.c:621-885 | A path cached while its tombstone holds came in by such an admission, has been cached ever since, and no list has counted since. |
| `SmsListing.TombstonedCanBeCached` | l850gl-mm-bridge/src/bridge.c:621-669 | A history that ends with one path cached and tombstoned at once: deleted, then created again before a list came back. |
| `SmsCacheRuns.DeletedIsTombstoned` | l850gl-mm-bridge/src/bridge.c:865-885 | A Deleted signal leaves the path uncached, and tombstoned unless 1,024 other paths already are. |
| `SmsCacheRuns.ListDropsTombstoned` | l850gl-mm-bridge/src/bridge.c:768-808 | A counting reply leaves no tombstoned path in the cache, even one an admission had put there, and drops its tombstone exactly if it is a list that omits it. |
| `Stamps.BeforeIsTotal` | l850gl-mm-bridge/src/ubus_glib.c:1052-1064 | The order of messages is a strict total order. |
| `Stamps.BeforeIff` | l850gl-mm-bridge/src/ubus_glib.c:1052-1064 | A message comes before another exactly if its timestamp is later, or the same with a smaller name; texts compare by their first difference, a proper prefix and an absent text being smaller. |
| `Stamps.LaterComesFirst` | l850gl-mm-bridge/src/bridge.c:499-511 | Of two timestamps that first differ at some place, the one with the larger character there comes first. |
| `Stamps.OrderedIsUnique` | l850gl-mm-bridge/src/bridge.c:499-511 | A collection of messages has exactly one ordered arrangement, so the result does not depend on the enumeration or the sort. |
| `Stamps.PrefixIsNewest` | l850gl-mm-bridge/src/bridge.c:772-775 | The first n of an ordered list are exactly the messages that fewer than n others precede. |
| `SmsPaging.ListSms` | l850gl-mm-bridge/src/ubus_glib.c:2503-2549 | Filtering, sorting, cursor search and cutting give the page of the folder view at that cursor, or a stale cursor. |
| `SmsPaging.ListingIgnoresOrder` | l850gl-mm-bridge/src/ubus_glib.c:2503-2513 | Any order in which the hash table is walked gives the same folder view. |
| `SmsPaging.ListingShows` | l850gl-mm-bridge/src/ubus_glib.c:2503-2513 | A listing of all shows every message and one of a folder exactly those of the folder; no message is listed after an earlier one, and among equal timestamps smaller IDs come first. |
| `SmsPaging.PagesPartition` | l850gl-mm-bridge/src/ubus_glib.c:2514-2549 | Following next_cursor from the empty cursor, the n-th page is exactly the n-th block of the view and exists exactly when the view reaches that far: every message once, in one order. |
| `SmsPaging.LoadSmsPages` | luci-app-l850gl-mm/htdocs/luci-static/resources/view/l850gl-mm/sms.js:85-172 | The browser loop returns what its pure form returns: page bound, stamp comparison, 1,024 bound, duplicates, strict and lenient ends. |
| `SmsPaging.LenientReset` | luci-app-l850gl-mm/htdocs/luci-static/resources/view/l850gl-mm/sms.js:98-122 | When the cursor has gone stale at page n, a lenient load returns the n pages it has, with the continuation of its first page, marked as reset. |
| `SmsListing.StepShowsIff` | l850gl-mm-bridge/src/bridge.c:513-546 | A step that leaves the revision of a serving cache alone leaves every path, ID, folder and timestamp it shows alone, if and only if it is not the admission, without a reserved ID, of a cached path with a proxy that says something else. |
| `SmsListing.SameRevisionSameView` | l850gl-mm-bridge/src/bridge.c:491-546 | In every history without such an admission, two moments with one revision below saturation, the later one serving, show the same paths, IDs, folders and timestamps. |
| `SmsListing.ViewCanChange` | l850gl-mm-bridge/src/bridge.c:642-653 | A history in which that admission changes what a serving cache shows while the revision stays. |
| `SmsListing.ListingIds` | l850gl-mm-bridge/src/ubus_glib.c:2503-2513 | A listing of any walk of any reachable cache has present, non-empty, pairwise distinct IDs. |
| `SmsListing.StrictLoadSeesFolder` | luci-app-l850gl-mm/htdocs/luci-static/resources/view/l850gl-mm/sms.js:85-172 | A strict load whose pages are cut from any moments, none before the first, of a history without such an admission and with the revision below saturation, and that ends without error and without more pages, holds exactly the folder as it was when its first page was cut, whatever signals, lists, property changes and epochs came between. |
| `SmsListing.EveryFolderLoads` | luci-app-l850gl-mm/htdocs/luci-static/resources/view/l850gl-mm/sms.js:1048-1085 | Eleven pages load every folder of every reachable cache completely and without error if it does not change meanwhile. |
| `SmsPaging.ElevenPagesSuffice` | luci-app-l850gl-mm/htdocs/luci-static/resources/view/l850gl-mm/sms.js:1048-1085 | Eleven pages of 100 load an unchanged folder of at most 1,024 messages completely, without error. |
| `SmsDedupe.ExpiryIsWindow` | l850gl-mm-bridge/src/sms_dedupe_policy.c:12-29 | Away from the end of the clock an entry expires exactly 300 s after it was stored, and the sum never leaves the 64-bit range. |
| `SmsDedupe.DedupeQueue.Prune` | l850gl-mm-bridge/src/ubus_glib.c:1359-1379 | Deleting links while walking removes exactly the expired entries and keeps the order of the others. |
| `SmsDedupe.DedupeQueue.Find` | l850gl-mm-bridge/src/ubus_glib.c:1389-1403 | Prunes, then returns the first position of the token. |
| `SmsDedupe.DedupeQueue.Store` | l850gl-mm-bridge/src/ubus_glib.c:1419-1458 | A token with an entry keeps its place; otherwise heads are evicted down to 63 and it goes to the tail. |
| `SmsDedupe.DedupeQueue.Remove` | l850gl-mm-bridge/src/ubus_glib.c:1405-1417 | Prunes, then removes the token's entry. |
| `SmsDedupe.PutOtherRetains` | l850gl-mm-bridge/src/ubus_glib.c:1419-1458 | Storing another token keeps an entry in the queue unless 64 distinct tokens were inserted after it. |
| `SmsDedupe.SurvivorIsTimely` | l850gl-mm-bridge/src/ubus_glib.c:1359-1379 | A retained entry that survives pruning has not reached its expiry. |
| `SmsSend.SecondDispatch` | l850gl-mm-bridge/src/ubus_glib.c:2732-2803 | If one token is dispatched twice in one messaging generation, the operation of the first dispatch ended, the token was opened again for the first time after that, and either that end was a definite failure, or at that reopening 300 s had passed since the token was last stored or at least 64 other tokens had been inserted after it. |
| `SmsSend.HeldMeans` | l850gl-mm-bridge/src/ubus_glib.c:1419-1458 | What the log says of a held token is exact: where it was last stored, where it last entered the queue, and precisely which tokens were inserted since. |
| `SmsSend.RetainedNeverReopens` | l850gl-mm-bridge/src/ubus_glib.c:2904-2986 | A request under a token still held, or while any send is in flight, even one that outlived its own entry, opens nothing; different content under a held token is answered with a conflict. |
| `SmsSend.StepKeeps` | l850gl-mm-bridge/src/ubus_glib.c:2634-2690 | Every step of the send protocol keeps each unreleased token in the queue, the log proper and the operation's own token held. |
| `SmsRetries.StepTells` | l850gl-mm-bridge/src/ubus_glib.c:2634-2690 | Every step keeps the queue of one mind with the log: an entry has the content, message ID, code and expiry that the log gives its token, and a token is in flight exactly while its operation runs in its epoch. |
| `SmsRetries.RetryIsTold` | l850gl-mm-bridge/src/ubus_glib.c:2882-2960 | In every history a request under a held, unreleased token is told the message ID and the code of the operation that the token opened (in flight while it runs, else the code it ended with), and a conflict for other content. |
| `SmsRetries.ToldIsTrue` | l850gl-mm-bridge/src/ubus_glib.c:2882-2960 | Whatever a request is told from the queue is the ID and code of the operation that this token opened with this content, within 300 s of its last store. |
| `SmsRetries.EndsAsItHappened` | l850gl-mm-bridge/src/ubus_glib.c:2639-2692 | An operation ends exactly with a failed or stale creation, a failed send or a successful one, and the log says which. |
| `SmsRetries.OutcomeIsTold` | l850gl-mm-bridge/src/ubus_glib.c:2639-2692 | After an operation was sent, or its outcome is unknown, a request with the same content is told exactly that and the ID of the message until the token is released, opened again or the epoch ends. |
| `SmsRetries.FreeIsAdmitted` | l850gl-mm-bridge/src/ubus_glib.c:2953-2963 | A request under a token that is free or older than 300 s is admitted if no send is in flight and told busy otherwise. |
| `SmsDigest.EncodeLength` | l850gl-mm-bridge/src/sms_policy.c:60-72 | The eight bytes written from last to first are the big-endian form of the length. |
| `SmsDigest.RequestInput` | l850gl-mm-bridge/src/sms_policy.c:74-93 | The hash is fed the domain, then each field behind its length. |
| `SmsDigest.FramingIsInjective` | l850gl-mm-bridge/src/sms_policy.c:60-93 | Two different pairs of recipient and text never give the hash the same bytes. |
| `CText.TrimInPlace` | l850gl-mm-bridge/src/l850_ca.c:74-85 | Trimming by writing NULs gives the trimmed text and writes only inside the string. |
| `CText.SplitFields` | l850gl-mm-bridge/src/l850_ca.c:145-167 | The in-place splitter returns the field count of the pure grammar (zero for an empty field that fits, one more than fit for too many) and positions that hold exactly the trimmed fields, writing only inside the string. |
| `CText.FieldCountIs` | l850gl-mm-bridge/src/l850_ca.c:145-167 | The count in closed form: zero, one more than fit, or the number of fields. |
| `CText.SplitJoins` | l850gl-mm-bridge/src/l850_ca.c:393-409 | Splitting loses nothing: joined again the pieces are the text, and none contains the separator. |
| `CText.JoinSplits` | l850gl-mm-bridge/src/l850_ca.c:393-409 | Pieces without the separator are recovered from their joined text. |
| `CText.CutPiece` | l850gl-mm-bridge/src/l850_ca.c:393-409 | Cutting at the first separator leaves the first piece and the rest as two strings of the buffer. |
| `CText.CleanLine` | l850gl-mm-bridge/src/l850_cell.c:415-422 | A line loses one carriage return and its outer blanks, in place. |
| `Numerals.Accumulate` | l850gl-mm-bridge/src/l850_ca.c:94-107 | The digit loop accepts exactly the numerals whose value does not exceed the limit and returns that value; the test before the multiplication is exact. |
| `Numerals.ParseUint32Decimal` | l850gl-mm-bridge/src/l850_ca.c:87-108 | Accepts exactly non-empty decimal texts up to the 32-bit maximum, with their value. |
| `Numerals.ParseUint32` | l850gl-mm-bridge/src/l850_cell.c:79-112 | The same for decimal and 0x-prefixed hexadecimal texts. |
| `Numerals.ParseInt32` | l850gl-mm-bridge/src/l850_cell.c:114-160 | Signed texts within 32 bits with their exact value, the least one included; hexadecimal only where the caller allows it. |
| `Numerals.NumbersRoundTrip` | l850gl-mm-bridge/src/l850_ca.c:110-143 | Every 32-bit number is read back from its decimal form, signed and unsigned. |
| `Numerals.HexRoundTrip` | l850gl-mm-bridge/src/l850_cell.c:79-112 | Every 32-bit number is read back from its hexadecimal form in either case, which a decimal-only reader refuses. |
| `Numerals.NumbersFit` | l850gl-mm-bridge/src/l850_cell.c:79-160 | No reader returns a number outside its 32 bits, and what it returns is the value of its digits. |
| `EarfcnTable.ScanTable` | l850gl-mm-bridge/src/l850_cell.c:185-201 | The table scan returns what the first-match lookup returns. |
| `EarfcnTable.LookupIsExact` | l850gl-mm-bridge/src/l850_cell.c:38-64 | A channel lies in a row of the ascending table exactly when the lookup gives that row's band. |
| `EarfcnTable.LookupBounds` | l850gl-mm-bridge/src/l850_cell.c:38-64 | Channels with a band are at most 70545, bands run from 1 to 85, and 65535 has no band. |
| `EarfcnTable.PairedIsExact` | l850gl-mm-bridge/src/l850_ca.c:174-203 | A downlink or uplink channel is valid for a band exactly if it lies in the range of the one row of that band. |
| `EarfcnTable.TablesAgree` | l850gl-mm-bridge/src/l850_ca.c:42-66 | Every downlink range of the paired-band table names the band that the independent channel table assigns. |
| `CarrierParser.Parse` | l850gl-mm-bridge/src/l850_ca.c:365-521 | The in-place parser returns the verdict and topology of the grammar, and every rejection leaves the output zeroed. |
| `CarrierParser.ParsePrimary` | l850gl-mm-bridge/src/l850_ca.c:266-302 | A primary record is read or rejected exactly as the grammar says. |
| `CarrierParser.ParseSecondary` | l850gl-mm-bridge/src/l850_ca.c:304-355 | A secondary record is read, recognised as idle or rejected exactly as the grammar says. |
| `CarrierParser.CarrierScan.ReadLine` | l850gl-mm-bridge/src/l850_ca.c:410-474 | One line, cut and read in place, moves the slot table as the grammar says and writes only inside the line. |
| `CarrierParser.CarrierScan.Finish` | l850gl-mm-bridge/src/l850_ca.c:476-516 | Missing primary, count, uplink and duplicate checks over the slot array give the grammar's conclusion. |
| `CarrierTheorems.AcceptedTopology` | l850gl-mm-bridge/src/l850_ca.c:219-521 | An accepted response has the primary first, strictly increasing slots, no (band, PCI, EARFCN) twice, uplink only on the primary, every secondary on the primary's uplink channel, and bands that agree with the independent channel table. |
| `CarrierTheorems.RecordOrderIsIrrelevant` | l850gl-mm-bridge/src/l850_ca.c:365-521 | An accepted response text stays accepted with the same topology when the lines behind its header are put in any other order. |
| `CarrierReports.PrimaryReadIff` | l850gl-mm-bridge/src/l850_ca.c:266-302 | Fourteen fields are read as an active slot if and only if they render a reportable primary line of that carrier: MCC, MNC, TAC, cell ID, PCI, RSRP, RSRQ, SINR, EARFCNs and bandwidths by position. |
| `CarrierReports.SecondaryReadIff` | l850gl-mm-bridge/src/l850_ca.c:304-355 | Ten fields are read as an active slot if and only if they render a reportable secondary line of that carrier, and as an idle one if and only if they render an idle line. |
| `CarrierAcceptance.AcceptedIff` | l850gl-mm-bridge/src/l850_ca.c:365-521 | A response is accepted if and only if it is within bounds, its non-blank lines are a header for n slots and n lines that report slots, in any order, and these go together (every index once, one uplink channel, no carrier twice); the result has exactly the active ones. |
| `CellParser.ScanOutput.Parse` | l850gl-mm-bridge/src/l850_cell.c:297-370 | The in-place XMCI parser returns the verdict and cells of the grammar; an empty or oversized response leaves the previous scan in the output, every other rejection empties it. |
| `CellParser.ParseCellLine` | l850gl-mm-bridge/src/l850_cell.c:222-294 | A cell line is split into fourteen fields, unquoted and read in place exactly as the grammar says, writing only inside the line. |
| `CellParser.UnquoteInPlace` | l850gl-mm-bridge/src/l850_cell.c:162-183 | A token is taken out of its quotes in place exactly when it is unquoted or properly quoted and not padded. |
| `CellParser.CellScan.ReadLine` | l850gl-mm-bridge/src/l850_cell.c:324-361 | One line moves the scan as the grammar says: the final OK, the bound of 64, one serving cell. |
| `CellGrammar.AcceptedScan` | l850gl-mm-bridge/src/l850_cell.c:222-370 | An accepted scan has 1 to 64 cells with valid PCIs, bands that the channel table assigns, measurements in their reporting ranges, and at most one serving cell. |
| `CellReports.LineReadIff` | l850gl-mm-bridge/src/l850_cell.c:222-294 | A line is read as a cell if and only if its fourteen numbers are reportable and report that cell: serving exactly for type 4, PCI sixth, EARFCN seventh, RSRP and RSRQ from the tenth and eleventh code. |
| `CellReports.ScanReadIff` | l850gl-mm-bridge/src/l850_cell.c:297-370 | A text is read as these cells if and only if its non-blank lines render numbers that report them in order, 1 to 64, at most one serving, perhaps with a closing OK. |
| `CellReports.ScanTextParses` | l850gl-mm-bridge/src/l850_cell.c:297-370 | Every scan written with any blanks, quotes, carriage returns, blank lines and numeral forms is read as the cells of its numbers. |
| `CellReports.LineRefused` | l850gl-mm-bridge/src/l850_cell.c:257-281 | Numbers that cannot be reported are refused for their type first, then for a value that means not available, then for their range. |
| `CellGrammar.QuotesDropped` | l850gl-mm-bridge/src/l850_cell.c:162-183 | Quoting a plain token does not change what is read. |
| `LockParser.LockOutput.Parse` | l850gl-mm-bridge/src/l850_cell.c:372-502 | The in-place NVM parser returns the grammar's verdict; an empty or oversized response leaves the previous state in the output, every other rejection zeroes it. |
| `LockParser.NvmScan.ReadLine` | l850gl-mm-bridge/src/l850_cell.c:409-446 | One line is cut at its only equals sign, both sides trimmed in place, and stored under its key unless that key is unknown or taken. |
| `LockGrammar.ReadMatchesIff` | l850gl-mm-bridge/src/l850_cell.c:454-496 | Five numbers are read as a state that matches a valid request exactly when they describe that request. |
| `LockGrammar.OneRequestPerState` | l850gl-mm-bridge/src/l850_cell.c:619-633 | Every state the parser can return matches one valid request and no other. |
| `LockReports.AcceptedIff` | l850gl-mm-bridge/src/l850_cell.c:372-502 | A text is accepted as a state if and only if it is within bounds and its non-blank lines give each of five keys once, in any order, with the numbers of a tuple of that state. |
| `LockReports.TupleReadIff` | l850gl-mm-bridge/src/l850_cell.c:409-452 | The line loop reads five given numbers if and only if the non-blank lines claim exactly these, in any order. |
| `LockReports.ReportTextParses` | l850gl-mm-bridge/src/l850_cell.c:409-446 | A report written in any order, with blanks around keys and numbers, blank lines, carriage returns and decimal or hexadecimal numerals with leading zeros, is read as the state of its numbers. |
| `LockReports.PlainReportParses` | l850gl-mm-bridge/src/l850_cell.c:372-502 | The five lines with their keys spelled out are read as the state of their numbers. |
| `LockReports.RequestRoundTrip` | l850gl-mm-bridge/src/l850_cell.c:372-502 | Whatever tuple the modem stores for a valid request, any text that renders it is read as a state that matches this request and no other valid one. |
| `LockGrammar.ValidRequestBuilds` | l850gl-mm-bridge/src/l850_cell.c:564-585 | The builder yields a command that fits its 96-byte buffer exactly for valid requests. |
| `LockGrammar.CommandSays` | l850gl-mm-bridge/src/l850_cell.c:564-585 | Read back between its parentheses, the command of a valid set request has the arguments 0, 3, the table's band, 1, the requested channel, and the requested cell identity or 65535. |
| `LockGrammar.ClearSays` | l850gl-mm-bridge/src/l850_cell.c:587-591 | The clear command reads 0, 3, 255, 0, 65535, 65535. |
| `LockGrammar.CommandIsInjective` | l850gl-mm-bridge/src/l850_cell.c:564-591 | No two valid requests share a command, the clear command included. |
| `RadioPolicy.Expand` | l850gl-mm-bridge/src/radio_policy.c:95-136 | The expansion loops write the requested names and every allowed non-LTE band into the 64-entry buffer, or refuse for the source's reasons in its order. |
| `RadioPolicy.Resolve` | l850gl-mm-bridge/src/radio_policy.c:138-191 | The resolution loop writes the values of the names, or refuses for the source's reasons in its order. |
| `RadioPolicy.SelectionIff` | l850gl-mm-bridge/src/ubus_glib.c:3569-3599 | Over distinct advertised names with consistent families, expand-then-resolve succeeds exactly for "any" (with an advertised band and an allowed family) or for distinct advertised LTE bands with 4G allowed, every other allowed family advertised and at most 64 bands; the result is exactly the chosen bands and all advertised bands of the other allowed families. |
| `NetworkBinding.AllowedModeIsSafe` | l850gl-mm-bridge/src/network_binding.c:104-138 | The offset loop accepts what the recursive scan accepts, modes of at most 15 characters. |
| `NetworkBinding.SafeIsGoodParts` | l850gl-mm-bridge/src/network_binding.c:104-138 | The scan accepts exactly distinct modes separated by bars, with or without a bar after the last one. |
| `NetworkBinding.TrailingBarIsSafe` | l850gl-mm-bridge/src/network_binding.c:119-134 | The mode 4g followed by a bar is accepted. |
| `NetworkBinding.LookupBinding` | l850gl-mm-bridge/src/network_binding.c:207-253 | The accumulator over the sections is unique exactly when one section matches and that one is named and safe, missing exactly when none matches, and carries that section's binding. |
| `NetworkBinding.LookupIgnoresOrder` | l850gl-mm-bridge/src/network_binding.c:207-253 | The lookup has one result, whatever the order of the sections. |
| `NetworkBinding.FindExactSection` | l850gl-mm-bridge/src/network_binding.c:334-364 | Finds a section exactly when it is the only match, named and safe, and has the given name. |
| `NetworkBinding.NetworkConfig.UpdateModes` | l850gl-mm-bridge/src/network_binding.c:366-473 | Each of the six results is returned exactly under its condition: invalid arguments, no match, matches but not one usable, a failed set, a failed commit, success; on success exactly the two mode options of that section change, otherwise nothing does. |
| `NetworkBinding.LookupAfterUpdate` | l850gl-mm-bridge/src/network_binding.c:366-473 | A lookup after a successful update finds the same section with exactly the written modes; every other section and option is as it was. |
| `CarrierCache.CarrierStore.Prune` | luci-app-l850gl-mm/htdocs/luci-static/resources/view/l850gl-mm/overview.js:28-42 | Pruning keeps exactly the entries whose generation the inventory lists, and clears everything for an oversized inventory. |
| `CarrierCache.CarrierStore.Remember` | luci-app-l850gl-mm/htdocs/luci-static/resources/view/l850gl-mm/overview.js:73-87 | Remembering a new modem in a full cache drops an entry that no other is older than. |
| `CarrierCache.CarrierStore.Select` | luci-app-l850gl-mm/htdocs/luci-static/resources/view/l850gl-mm/overview.js:89-106 | A success is remembered and shown, a transient failure shows a usable entry, anything else drops the entry. |
| `CarrierCache.ShownIsLatestSuccess` | luci-app-l850gl-mm/htdocs/luci-static/resources/view/l850gl-mm/overview.js:89-141 | Whatever is shown for a failed query is the topology of the latest success for the same modem and generation, at most 30 s old, with no other result, inventory failure or removal since. |
| `CarrierCache.ShownIff` | luci-app-l850gl-mm/htdocs/luci-static/resources/view/l850gl-mm/overview.js:89-106 | A transient failure is answered with a topology if and only if that is the one of a success for the same modem and generation, at most 30 s before, which nothing has replaced, invalidated, outlived or evicted. |
| `CarrierCache.EntryFate` | luci-app-l850gl-mm/htdocs/luci-static/resources/view/l850gl-mm/overview.js:28-106 | An entry leaves the cache if and only if an event invalidates it, a transient failure comes too late or for another generation, or a success of a new modem evicts it as an oldest one from a full cache. |
| `CarrierCache.NoReturnWithoutSuccess` | luci-app-l850gl-mm/htdocs/luci-static/resources/view/l850gl-mm/overview.js:73-106 | A modem without an entry, evicted or not, gets one only by a new success. |
| `CarrierCache.NeverOver64` | luci-app-l850gl-mm/htdocs/luci-static/resources/view/l850gl-mm/overview.js:73-87 | The cache never exceeds 64 entries. |

## Left out

- Arbitration, send protocol and mailbox histories are transition systems over values: they interleave several objects. The single objects (coordinator operation, mailbox, token queue, verifier, parsers, stores) are classes.
- Rate limits, messaging conditions and readiness checks of the admissions: they only refuse more requests than the model does.
- Other holders of the SMS lock (deleting a message) in the send protocol: they only make more requests busy.
- SHA-256: the hash is not modelled; that equal digests mean equal content rests on its collision freedom and `SmsDigest.FramingIsInjective`.
- Reply texts, error messages, enum names and D-Bus error classification tables.
- The connection state machine of the bridge and reference counting of foreign objects.
- Shape checks of carrier replies and of transient errors in the overview page: a reply arrives classified as valid, transient or other.
- Bulk deletion after the confirmation, conversation filters and every other part of the pages.
- Recipient, text and token validation of a send request, voltage parsing, cooldown arithmetic of scan and carrier queries: easy members.
- `l850gl_l850_state_transition_is_valid`: production code does not call it.
- Values of a message's proxy other than folder and timestamp (number, text, storage): the listing order and the folder filter do not read them.
- NetworkBinding.NetworkConfig.UpdateModes: a failed commit is taken to leave the stored configuration alone; partial writes of libuci are not modelled.
- SmsCache.ListGivesNewest: stated for lists of distinct paths; with repeated paths only the ID guarantees and the bound hold.
- CarrierParser.Parse: allocation failure of the private copy is not modelled.
