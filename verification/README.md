# Pledge: verified models of the batching client, the scheduler caches and their algorithms

A Dafny model of the parts of the Pledge repository whose correctness spans several calls or whole runs:

- **JSON-RPC multiplexer** (`MiniRpc`, `MiniRpcCode`, `MiniRpcTheorems`, `MiniRpcAnswers`): `MiniRpcProvider` queues calls under
  fresh ids, arms a timer, sends the queue as one batch and settles promises as replies arrive, with any number
  of batches in flight. It is the client side of section 6 (Batch) of the JSON-RPC 2.0 Specification.
- **Token cache** (`TokenCache`, `TokenJobs`, `TokenCacheTheorems`, `TokenCacheEffects`): one Redis entry per token, shared by the
  price, symbol and logo jobs and by the read-through reader, in front of the table `token_info`.
- **Pool sync** (`PoolSync`, `PoolServiceCode`; `PoolSyncTheorems` on skipping against always writing,
  `PoolRowTheorems` on the rows a pass leaves, `PoolColumnTheorems` on single columns, creation times and the
  expiry, `PoolSummaryTheorems` on the token summaries, `PoolDriftTheorems` on failing writes,
  `SettlementTheorems` and `SettlementHistory` on the settlement row, `SchedulerCoherence`, `PoolListing`): the pass that copies pools from
  the chain to the database, skipping writes by two Redis fingerprints with a 30-minute expiry, and the API
  listing on top of it.
- **Retry with cancellation** (`Retry`), **chunking** (`ChunkArray`), **routing candidates** (`Trades`),
  **numeric input** (`NumericInput`), **parameter tokenizer** (`ParamTokenizer`), **LP fee** (`Prices`),
  **media-query ranges** (`Breakpoints`).

Code that changes state is a class or a method proved against a specification function (`Model() == Step(old(Model()), ...)`);
the theorems are about those functions, over every input and every run. The
`...Answers`, `...Effects` and `...ColumnTheorems` modules say what each step stores by inputs and stored values alone. `dafny verify dfyconfig.toml` checks
everything. `MiniRpc.dfy`, `TokenCache.dfy` and `PoolSync.dfy` hold the state and the steps and read first.

## What the proofs found

Where a natural promise does not hold of the code, the model keeps the code, a lemma exhibits an input, and
another states when the promise does hold.

- A response with an id outside its batch makes the destructuring at NetworkConnector.ts:94-98 throw, and the
  rest of the reply is lost (`DeliverStops`); so the order of a reply can matter (`ForeignIdMakesOrderMatter`).
  `OrderIrrelevantIff` says when it does not.
- `clearBatch` is public. Called directly on a queue it leaves its timer running, and the next request arms a
  second one (`DirectClearLeavesTwoTimers`). There is one timer while something is queued, all along a run, iff
  no direct call meets a non-empty queue (`OneTimerIff`).
- A save that fails after Redis was written is not retried while Redis remembers it (`FailedSaveSticks`,
  `FailedSaveIsRemembered`). `WriteCoherentIff`, and `BaseRowCurrentIff` with `TurnCurrentIff` and
  `PassCurrentIff`, say exactly when cache and table agree and when a pool row is up to date.
- A failing Redis read counts as an uncached token, so a price write during one replaces the whole entry and the
  cached logo and symbol are gone (`FailedGetLosesLogo`); they stay iff `CachedLogoKeptIff` says so.
- Nor is a failing Redis write harmless: with base records q, r and q inside the expiry and the second
  fingerprint not stored, the third save is skipped and the row keeps r (`FailedSetDrifts`). Skipping stays in
  step with always writing iff no skip trusts a fingerprint its row does not back (`SkippingInStepIff`), and
  `TurnKeepsMirrorIff` says which turns keep every fingerprint backed.
- The settlement row is guarded by a fingerprint of the base record, taken after the save has stamped it.
  Settlement data that changes alone is missed until the fingerprint expires (`SettlementRowLags`); the row is
  saved iff the record at the guard is not the one remembered (`SettlementSavedIff`) and shows what was read iff
  that save reached it or it did before (`SettlementCurrentIff`). It is rewritten whenever the record differs
  from the one at its last save (`SettlementFollowsRecord`), unless Redis failed to take a fingerprint
  (`FailedDataSetMisses`).
- The API's struct tags its threshold with `auto_liquidata_threshold`, a column that neither the sync nor the
  schema has, and its borrow token with `pool_id`. After every pass the table has both values and the listing
  neither (`ListingLosesThreshold`); `TagReadsIff` and `LostFieldsIff` are the exact conditions.
- The comment on logos says the local ones have the higher weight. A remote list that does not parse ends the
  job before the local pass, and older logos stay (`UnparsableListKeepsOldLogo`). The local logo wins iff the
  list parses or is missing, or the logo was there before (`LocalLogoWins`, `LocalLogoWinsInTable`).
- A cancel during the wait of `retry` does not stop one further call (`CancelDuringWaitCallsOnceMore`); another
  call can start after a cancel iff it came during a wait (`CancelLeavesCallIff`).
- `chunkArray` promises evenly distributed items; ten items by four give 4, 4 and 2 (`TenByFourIsUneven`).
  `EvenIff` is the condition.
- Widths strictly between a breakpoint and the next whole pixel match no range (`ExactlyOneIff`).

## Modelling choices

- MD5 over the JSON of a record is a parameter `md5: PoolBase -> string`; theorems that need it require it to be
  injective. Token strings are taken as canonical, so a (chain, token) pair is one key.
- Redis is a map, with an expiry time where the code sets one; a key answers until that time has passed. MySQL
  tables are maps. A GORM struct update overwrites the columns whose new value is not blank. A tag without a
  column setting (poolBase.go:19, poolBases.go:34) means the column named after the field; the listing reads
  whole rows, and a field whose column is missing or null is blank.
- Each store call can be made to fail by a flag in `Faults`, `SaveFaults` or `PoolFaults`; chain reads, clocks
  and HTTP replies are inputs of the step. All calls of one pool's turn happen at one instant.
- An event that cannot happen in a state (a timer that is not running, a fetch that is not suspended) leaves
  the state unchanged, so theorems quantify over all event lists.
- Response ids are compared as numbers; an element no id can be read from is `Malformed`.
- `Math.ceil` of a quotient is exact integer division rounded up, and `maxChunkSize` is an integer. Fractions
  of the swap library are pairs of integers, multiplied and subtracted without reduction.
- Token equality in `Trades` means equal chain and address; the pool lookup is an input that does not depend on
  the order of the two tokens, as `usePairs` sorts them.

## Model

| member | source | states |
|---|---|---|
| MiniRpcCode.MiniRpcProvider.constructor | pledge-fe/src/connectors/NetworkConnector.ts:44-58 | a new provider starts at id 1 with an empty queue and no timer |
| MiniRpcCode.MiniRpcProvider.Request | pledge-fe/src/connectors/NetworkConnector.ts:120-144 | queues the call under the next id and arms a timer only if none is named; answers `eth_chainId` itself and changes nothing |
| MiniRpcCode.MiniRpcProvider.ClearBatch | pledge-fe/src/connectors/NetworkConnector.ts:60-70 | captures exactly the queue as a new flight, empties it and forgets the timer |
| MiniRpcCode.MiniRpcProvider.FireTimer | pledge-fe/src/connectors/NetworkConnector.ts:142 | a timer fires once and clears the queue |
| MiniRpcCode.MiniRpcProvider.RejectEach | pledge-fe/src/connectors/NetworkConnector.ts:72 | the failure loop gives every still pending promise of the batch that failure |
| MiniRpcCode.MiniRpcProvider.SettleResponses | pledge-fe/src/connectors/NetworkConnector.ts:93-108 | the response loop settles as `Deliver` says, and aborts exactly when some response has an id outside the batch |
| MiniRpcCode.MiniRpcProvider.Arrive | pledge-fe/src/connectors/NetworkConnector.ts:71-109 | the resumed activation settles its own batch according to the outcome of its fetch |
| MiniRpcTheorems.DeliverStops | pledge-fe/src/connectors/NetworkConnector.ts:94-98 | responses from the first foreign id on have no effect |
| MiniRpcTheorems.DeliverMeaning | pledge-fe/src/connectors/NetworkConnector.ts:88-108 | settled promises stay; every other answered id gets the outcome of the first response carrying that very id; no other promise is settled |
| MiniRpcAnswers.FirstResponseDecides | pledge-fe/src/connectors/NetworkConnector.ts:93-107 | the first response for a pending id, no foreign id before it, rejects with its error member, else resolves with its result, else rejects as unexpected with the method's name |
| MiniRpcAnswers.ArrivalAnswers | pledge-fe/src/connectors/NetworkConnector.ts:71-109 | the same for a reply arriving in any reachable state, for the call issued under that id |
| MiniRpcAnswers.UnusableReplySettlesNothing | pledge-fe/src/connectors/NetworkConnector.ts:92-98 | a reply that cannot be iterated or starts with a foreign id settles nothing and leaves its whole batch unanswered |
| MiniRpcTheorems.OrderIrrelevantIff | pledge-fe/src/connectors/NetworkConnector.ts:92-108 | all orders of a response list give the same outcomes iff no two pending responses compete for one id with different outcomes and no foreign id can cut off a pending one |
| MiniRpcTheorems.ForeignIdMakesOrderMatter | pledge-fe/src/connectors/NetworkConnector.ts:94-98 | one answer and one foreign id: in one order the call gets its answer, in the other nothing |
| MiniRpcTheorems.RunKeepsInv | pledge-fe/src/connectors/NetworkConnector.ts:60-144 | every step sequence keeps the partition of ids, well-formed batches and the timer invariant |
| MiniRpcTheorems.EveryRunPartitionsIds | pledge-fe/src/connectors/NetworkConnector.ts:130-144 | in every run, ids 1 to nextId-1 and no others are queued, in one flight, settled or unanswered, each in one place only; a waiting request has a running timer |
| MiniRpcAnswers.BatchesFollowRequests | pledge-fe/src/connectors/NetworkConnector.ts:120-144 | in every run the k-th requested call travels under id k, and every batch, waiting or sent, is a stretch of consecutive requests in order; `eth_chainId` is none of them |
| MiniRpcTheorems.RunExtends | pledge-fe/src/connectors/NetworkConnector.ts:60-144 | no run changes a settled outcome or reuses an id |
| MiniRpcTheorems.FailureRejectsCapturedBatch | pledge-fe/src/connectors/NetworkConnector.ts:71-87 | each of the three failure exits rejects the whole captured batch and touches no queue, timer, other flight or settled promise |
| MiniRpcTheorems.RunStrays | pledge-fe/src/connectors/NetworkConnector.ts:60-63 | running timers that the field does not name never outnumber the direct calls of `clearBatch` |
| MiniRpcTheorems.OneTimerIff | pledge-fe/src/connectors/NetworkConnector.ts:60-63 | all along a run exactly one timer runs when requests wait and none otherwise, iff no direct `clearBatch` meets a non-empty queue |
| MiniRpcTheorems.OneTimerExactlyWhenQueued | pledge-fe/src/connectors/NetworkConnector.ts:142 | at the end of such a run the timers are the named one while requests wait, and none otherwise |
| MiniRpcTheorems.DirectClearLeavesTwoTimers | pledge-fe/src/connectors/NetworkConnector.ts:60-63 | a direct `clearBatch` between two requests leaves two timers running |
| MiniRpcTheorems.RunDirect | pledge-fe/src/connectors/NetworkConnector.ts:88-108 | however calls were batched, delayed, reordered or repeated, a settled promise holds the answer to its own call or a transport failure |
| MiniRpcAnswers.SettledIsOwnAnswer | pledge-fe/src/connectors/NetworkConnector.ts:88-108 | in terms of the requested calls and of the error and result members of their answers |
| MiniRpcTheorems.RunComplete | pledge-fe/src/connectors/NetworkConnector.ts:93-108 | with complete replies no id is left unanswered and none fails in transport |
| MiniRpcTheorems.MultiplexerRefinesDirectCalls | pledge-fe/src/connectors/NetworkConnector.ts:60-144 | with complete replies a drained multiplexer holds, for every issued call, exactly the outcome of sending that call alone |
| MiniRpcAnswers.DrainedAnswersEveryRequest | pledge-fe/src/connectors/NetworkConnector.ts:60-144 | then exactly the requested calls have promises, and the k-th holds the error of its answer, else its result, else the rejection as unexpected |
| MiniRpcTheorems.CanDrain | pledge-fe/src/connectors/NetworkConnector.ts:60-144 | from every reachable state the running timer and complete replies reach a drained one |
| TokenJobs.TokenJobs.CheckTokenInfo | pledge-backend/schedule/services/tokenPriceService.go:171-191 | inserts the row only if it is absent, and reports lookup and insert errors |
| TokenJobs.TokenJobs.CheckPriceData | pledge-backend/schedule/services/tokenPriceService.go:131-168 | new state, new-data flag and error of the price check, on hit and miss and with failing Redis |
| TokenJobs.TokenJobs.CheckSymbolData | pledge-backend/schedule/services/tokenSymbolService.go:202-239 | the same for the symbol check |
| TokenJobs.TokenJobs.CheckLogoData | pledge-backend/schedule/services/tokenLogoService.go:77-116 | the same for the logo check, which compares the logo alone and writes logo and symbol |
| TokenJobs.TokenJobs.SaveData | pledge-backend/schedule/services/tokenLogoService.go:142-157 | the update changes its own fields of an existing row and nothing else |
| TokenJobs.TokenJobs.UpdateContractPrice | pledge-backend/schedule/services/tokenPriceService.go:33-82 | the loop performs the planned check-and-save pairs in order: oracle price on the test net, zero elsewhere, skipping empty tokens and failed reads |
| TokenJobs.TokenJobs.UpdateContractSymbol | pledge-backend/schedule/services/tokenSymbolService.go:29-73 | the same for symbols, on the two configured chains only |
| TokenJobs.TokenJobs.UpdateTokenLogo | pledge-backend/schedule/services/tokenLogoService.go:23-74 | remote list first, then the local table; an unparsable remote list ends the job |
| TokenJobs.TokenJobs.GetTokenInfo | pledge-backend/schedule/models/tokenInfo.go:28-65 | the read-through: cached entry, else the row, filling Redis only when a row was found |
| TokenCacheEffects.ReadFromCache | pledge-backend/schedule/models/tokenInfo.go:53-62 | a cached token is answered with its entry and nothing is written |
| TokenCacheEffects.ReadThrough | pledge-backend/schedule/models/tokenInfo.go:32-52 | on a miss with a row, logo, symbol and price of the answer are the row's, and Redis holds the same three if it took the write |
| TokenCacheEffects.ReadFindsNothing | pledge-backend/schedule/models/tokenInfo.go:36-41 | without a row the answer is blank, with a failing lookup an error; Redis is left alone |
| TokenCacheEffects.ReadAgain | pledge-backend/schedule/models/tokenInfo.go:32-62 | after a cached miss, and any work on other tokens, reading again gives the three values the row had |
| TokenCacheEffects.CheckReports | pledge-backend/schedule/services/tokenPriceService.go:131-168 | the error and new-data flags, by cached value and Redis errors |
| TokenCacheEffects.InsertExactly | pledge-backend/schedule/services/tokenPriceService.go:171-191 | an insert adds a blank row only where there was none, unless the table fails |
| TokenCacheEffects.PriceWriteExactly | pledge-backend/schedule/services/tokenPriceService.go:131-208 | what a price pair does, for all errors: the price alone changes in entry and row, Redis first, neither if Redis has it |
| TokenCacheEffects.SymbolWriteExactly | pledge-backend/schedule/services/tokenSymbolService.go:202-278 | the same for the symbol |
| TokenCacheEffects.LogoWriteExactly | pledge-backend/schedule/services/tokenLogoService.go:77-157 | logo decides; logo and symbol are written, decimals to the row, price stays |
| TokenCacheEffects.CachedLogoKeptIff | pledge-backend/schedule/services/tokenPriceService.go:134-147 | a price write keeps the cached logo and symbol iff Redis answered, or refused the write, or there was nothing to lose |
| TokenCacheEffects.FailedGetLosesLogo | pledge-backend/schedule/services/tokenPriceService.go:134-147 | a failing read during a price write blanks the cached logo |
| TokenCacheEffects.RunKeepsRowFields | pledge-backend/schedule/services/tokenPriceService.go:193-208 | in every run with any errors no row is lost, price changes only by price writes, logo and decimals by logo writes, symbol by symbol and logo writes |
| TokenCacheTheorems.WriteCoherentIff | pledge-backend/schedule/services/tokenPriceService.go:131-208 | from agreement, a check-and-save pair with any errors keeps cache and table in agreement iff Redis was not written, or the row is there and was updated or already matched |
| TokenCacheTheorems.RunCoherent | pledge-backend/schedule/services/tokenSymbolService.go:202-278 | every run of the three writers, the reader and row insertions keeps each non-empty cached field equal to the row's, whatever Redis does, without table errors in writes |
| TokenCacheTheorems.FailedSaveSticks | pledge-backend/schedule/services/tokenPriceService.go:156-158 | while Redis has the value, repeating it, reading and work on other tokens never change the row |
| TokenCacheTheorems.FailedSaveIsStale | pledge-backend/schedule/services/tokenPriceService.go:160-167 | a failing update after the Redis write leaves the new value in Redis and the old row |
| TokenCacheTheorems.PassIsConfluent | pledge-backend/schedule/services/tokenLogoService.go:54-73 | a pass whose repeated tokens agree gives the same store in every iteration order |
| TokenCacheTheorems.LocalTableConfluentIff | pledge-backend/schedule/services/tokenLogoService.go:173-215 | the local table gives one result for every store and order iff equal keys carry equal entries |
| TokenCacheTheorems.SecondPassWritesNothing | pledge-backend/schedule/services/tokenLogoService.go:103-105 | running the pass again at once, in any order, performs no write |
| TokenCacheTheorems.LocalLogoWins | pledge-backend/schedule/services/tokenLogoService.go:23-74 | with any remote list and from any store, a listed token ends with its local logo in Redis iff the list parsed or was missing, or Redis had it before |
| TokenCacheTheorems.LocalLogoStoredIff | pledge-backend/schedule/services/tokenLogoService.go:54-73 | when the row has the local logo after the job: the token was not cached, or its row is there and is written, or has the logo already |
| TokenCacheTheorems.LocalLogoWinsInTable | pledge-backend/schedule/services/tokenLogoService.go:23-74 | where cache and table agree and the table works, the row gets the local logo iff the list parsed or was missing, or the row had it |
| TokenCacheTheorems.UnparsableListKeepsOldLogo | pledge-backend/schedule/services/tokenLogoService.go:31-35 | an unparsable list keeps an old logo in both stores, where a missing one does not |
| TokenCacheTheorems.PassDelivers | pledge-backend/schedule/services/tokenLogoService.go:142-157 | after an error-free pass both stores hold the planned value of every planned token |
| TokenCacheTheorems.PriceJobDelivers | pledge-backend/schedule/services/tokenPriceService.go:36-81 | after an error-free price job both stores hold the price of every priced token |
| TokenCacheEffects.PriceJobSkips | pledge-backend/schedule/services/tokenPriceService.go:38-62 | empty tokens and test-net tokens with a failed read keep entry and row |
| TokenCacheEffects.SymbolJobDelivers | pledge-backend/schedule/services/tokenSymbolService.go:29-73 | after an error-free symbol job both stores hold the symbol read, on both configured chains |
| TokenCacheEffects.SymbolJobSkips | pledge-backend/schedule/services/tokenSymbolService.go:37-58 | empty tokens, other chains and failed reads keep entry and row |
| TokenCacheEffects.LocalLogoExactly | pledge-backend/schedule/services/tokenLogoService.go:54-73 | each listed token gets its own logo, symbol and decimals, or keeps all it had if its logo was cached |
| TokenCacheEffects.RemoteLogoExactly | pledge-backend/schedule/services/tokenLogoService.go:36-52 | so does a token of the remote list that the local table does not name |
| TokenCacheEffects.LogoJobSkips | pledge-backend/schedule/services/tokenLogoService.go:31-58 | an unparsable list changes nothing, and entries without an address are passed over |
| PoolServiceCode.PoolService.SaveTokenInfo | pledge-backend/schedule/models/poolBase.go:108-157 | inserts missing token rows, borrow token first, and returns the table's symbols or an error |
| PoolServiceCode.PoolService.SavePoolBase | pledge-backend/schedule/models/poolBase.go:60-97 | new tables, the caller's record as filled in, and success, for every place where a table call can fail |
| PoolServiceCode.PoolService.SavePoolData | pledge-backend/schedule/models/poolData.go:29-51 | the settlement upsert with its time stamps and failures |
| PoolColumnTheorems.SaveTokenInfoExactly | pledge-backend/schedule/models/poolBase.go:108-157 | when the token rows can be had, whose symbols result, and that only missing rows are inserted, blank |
| PoolColumnTheorems.SavedRecord | pledge-backend/schedule/models/poolBase.go:65-90 | the caller's record after a save, by where it stopped: symbols on their own sides, time of the save, time of the insert if new |
| PoolColumnTheorems.SaveMergesColumns | pledge-backend/schedule/models/poolBase.go:73-94 | the save writes its row iff nothing stops it: a new row is the record, an old one takes each column with a value and keeps its own where the record is blank; success iff no call failed |
| PoolColumnTheorems.DataSaveMergesColumns | pledge-backend/schedule/models/poolData.go:29-51 | the same for the settlement row and its six amounts |
| PoolColumnTheorems.RunKeepsCreation | pledge-backend/schedule/models/poolBase.go:76-90 | no run, with any failures, loses a pool or settlement row or changes its creation time |
| PoolColumnTheorems.CreatedAtIsInsertTime | pledge-backend/schedule/models/poolBase.go:76-90 | a row a turn inserts carries the time of that turn in every later state of every run |
| PoolServiceCode.PoolService.GetPoolMd5 | pledge-backend/schedule/services/poolService.go:144-153 | the stored fingerprint is found iff the read works and the key is alive; the own one is that of the record as it now is |
| PoolServiceCode.PoolService.SyncBaseInfo | pledge-backend/schedule/services/poolService.go:107-115 | writes unless the fingerprint is found and equal; remembers the record as it was before the save, even if the save failed |
| PoolServiceCode.PoolService.SyncDataInfo | pledge-backend/schedule/services/poolService.go:123-140 | guards the settlement row by the base record as the save left it |
| PoolServiceCode.PoolService.UpdatePoolInfo | pledge-backend/schedule/services/poolService.go:32-142 | a pass turns each contract pool i into row i+1, continuing past failed reads |
| PoolColumnTheorems.UnreadIsUntouched | pledge-backend/schedule/services/poolService.go:34-66 | unread pools, unread settlement parts and unreachable contracts change nothing of theirs |
| PoolColumnTheorems.BaseGuardExactly | pledge-backend/schedule/services/poolService.go:107-115 | the base save is attempted iff Redis fails, has no live fingerprint or another record's; the fingerprint left is of the record before the save, for 1800 seconds |
| PoolColumnTheorems.DataGuardExactly | pledge-backend/schedule/services/poolService.go:123-140 | the same for the settlement save, with the record as it is by then |
| PoolColumnTheorems.SavedAgainIff | pledge-backend/schedule/services/poolService.go:107-115 | an unchanged record is saved again iff more than 1800 seconds have passed or Redis cannot be read |
| PoolSyncTheorems.CleanSave | pledge-backend/schedule/models/poolBase.go:60-97 | an error-free save changes one pool row, merges the core columns into it and leaves fingerprints and settlement rows alone |
| PoolRowTheorems.CleanSaveSymbols | pledge-backend/schedule/models/poolBase.go:70-71 | the stored symbols are the token table's, borrow and lend each on its own side |
| PoolSyncTheorems.SyncPoolMirrors | pledge-backend/schedule/services/poolService.go:107-115 | a turn with working saves keeps every stored fingerprint backed by a row that has its record, and leaves other pools alone |
| PoolSyncTheorems.RunSimilar | pledge-backend/schedule/services/poolService.go:59-141 | the skipping and the always-writing sync stay in step through every run |
| PoolSyncTheorems.SkippingRefinesAlwaysWriting | pledge-backend/schedule/services/poolService.go:107-115 | with an injective fingerprint, flushed Redis, and base saves and writes of base fingerprints that all succeed, skipping leaves the same pools, core columns and token store as writing every time |
| PoolDriftTheorems.SkippingInStepIff | pledge-backend/schedule/services/poolService.go:107-115 | while saves succeed, whatever Redis does and from any state, skipping agrees with always writing at every turn of a run iff no skip trusts a fingerprint its row does not back |
| PoolDriftTheorems.TurnInStepIff | pledge-backend/schedule/services/poolService.go:59-141 | the same for one turn, of two states in step |
| PoolDriftTheorems.TurnKeepsMirrorIff | pledge-backend/schedule/services/poolService.go:107-115 | with any errors a turn keeps every fingerprint backed iff it skips, or stores its fingerprint over a row and token rows that have the record, or fails to store it while the save does not reach the row or leaves it with the old record |
| PoolDriftTheorems.FailedSetDrifts | pledge-backend/schedule/services/poolService.go:114 | records q, r, q inside the expiry with the second fingerprint lost: the third save is skipped, the row keeps r, where always writing gives q |
| PoolRowTheorems.BaseRowCurrentIff | pledge-backend/schedule/services/poolService.go:107-115 | from any state and with any errors the base row is up to date iff it was written or was up to date before |
| PoolRowTheorems.MirroredBaseRowCurrentIff | pledge-backend/schedule/services/poolService.go:107-115 | where fingerprints are backed, it is iff the guard skipped, the save reached the row, or it was up to date before |
| PoolRowTheorems.TurnCurrentIff | pledge-backend/schedule/services/poolService.go:59-141 | the same as BaseRowCurrentIff for the record a whole turn builds |
| PoolRowTheorems.PassCurrentIff | pledge-backend/schedule/services/poolService.go:32-142 | after a pass, with any errors, the row of a pool read is up to date iff its own turn wrote it or it was before |
| PoolRowTheorems.PassShowsChain | pledge-backend/schedule/services/poolService.go:85-105 | after a pass the row of a pool that was read and saved without error shows the chain's value in every chain column, whatever Redis or the other pools do, if its fingerprint was backed |
| PoolRowTheorems.TurnShowsTokenInfo | pledge-backend/schedule/services/poolService.go:69-83 | the token summaries of the row carry each side's own fee, logo, symbol and price |
| PoolSummaryTheorems.TurnShowsTokenRows | pledge-backend/schedule/services/poolService.go:69-83 | for tokens Redis does not have, the summaries are logo, symbol and price of the two `token_info` rows, each with its side's fee |
| PoolSummaryTheorems.PassShowsTokenRows | pledge-backend/schedule/services/poolService.go:69-83 | so they are after a whole pass that starts from flushed Redis or full copies, whatever Redis does |
| PoolSyncTheorems.PassAttemptsWithinTtl | pledge-backend/schedule/services/poolService.go:107-140 | whatever fails, after a pass each pool read has had its save attempts no longer than the expiry ago |
| PoolSyncTheorems.StalenessIsBounded | pledge-backend/schedule/services/poolService.go:107-140 | the same for the last pass of every run from flushed Redis: no attempt is older than 1800 seconds |
| SettlementTheorems.BaseWriteForcesSettlementWrite | pledge-backend/schedule/services/poolService.go:123-139 | in every run with passes in time order, a turn that stores the base row and reads settlement data saves the settlement row too |
| SettlementTheorems.SettlementRowLags | pledge-backend/schedule/services/poolService.go:123-124 | of three turns with one record inside the expiry, the third stores nothing, so changed settlement data is missed |
| SettlementHistory.SettlementSavedIff | pledge-backend/schedule/services/poolService.go:123-140 | in every run from flushed Redis, with any failures, a turn saves the settlement row iff it does not recognise the record: the fingerprint is unreadable, expired, or that of another record |
| SettlementHistory.SettlementFollowsRecord | pledge-backend/schedule/services/poolService.go:123-140 | while Redis takes settlement fingerprints, the row is saved in every pass whose base record at the guard differs from the one at the pool's last settlement save |
| SettlementHistory.FailedDataSetMisses | pledge-backend/schedule/services/poolService.go:139 | records q, r, q with the second fingerprint lost: the third save is skipped |
| SettlementHistory.SettlementRowCurrentIff | pledge-backend/schedule/services/poolService.go:123-140 | from any state and with any errors the settlement row shows what was read iff the guard asked for a save that reached it, or it showed it before |
| SettlementHistory.SettlementCurrentIff | pledge-backend/schedule/services/poolService.go:123-140 | the same for every turn of every run, with the guard decided by the record remembered |
| SettlementTheorems.FailedSaveIsRemembered | pledge-backend/schedule/services/poolService.go:110-114 | after a failed insert the next turn inside the expiry skips the pool, where writing always stores it |
| SchedulerCoherence.SchedulerCoherent | pledge-backend/schedule/tasks/task.go:23-41 | token jobs, reads and pool passes in any order keep cache and table in agreement unless a token write meets a table error |
| SchedulerCoherence.FlushedSchedulerCoherent | pledge-backend/schedule/tasks/task.go:17-41 | so they do in every run from the flush at the start, whatever the tables hold |
| PoolListing.PoolBaseInfo | pledge-backend/api/models/poolBases.go:82-108 | one item per row found, in order, with index one less than the pool id, the text fields as scanned and both summaries unmarshalled |
| PoolListing.TagReadsIff | pledge-backend/api/models/poolBases.go:27-45 | a tag of the API reads a column the sync writes, in every row, iff it has the name the sync's tag gives it |
| PoolListing.LostFieldsIff | pledge-backend/api/models/poolBases.go:30-32 | whatever the row holds, the listed threshold is the contract's iff that is empty, and the listed borrow token iff that is what the second `pool_id` field holds |
| PoolListing.IndexIsPositionIff | pledge-backend/api/models/poolBases.go:87-88 | every index is its position iff the chain's synced pools have no gap |
| PoolListing.ListingFollowsContract | pledge-backend/api/models/poolBases.go:77-108 | after a pass that read every pool, entry k has index k, pool id k+1, contract pool k's value in each of the eleven text fields whose tags match, and the token summaries that its turn built |
| PoolListing.ListingShowsTokenRows | pledge-backend/api/models/poolBases.go:83-99 | after such a pass from flushed Redis or full copies, the listed summaries are those of the token table |
| PoolListing.ListingLosesThreshold | pledge-backend/api/models/poolBases.go:30-32 | after every such pass the row has the contract's threshold and borrow token, the listed threshold is not the contract's, and an address of a borrow token is never listed |
| Retry.Retrier.ResumeAfterCall | pledge-fe/src/utils/retry.ts:42-59 | what the loop does with a settled attempt, by success, completion, retries left and kind of error |
| Retry.Retrier.ResumeAfterWait | pledge-fe/src/utils/retry.ts:60-61 | after the wait the loop calls again, cancelled or not |
| Retry.Retrier.CancelRetry | pledge-fe/src/utils/retry.ts:65-69 | cancel settles an unsettled promise and does nothing to a settled one |
| Retry.SettlesOnceWithinBudget | pledge-fe/src/utils/retry.ts:30-71 | in every interleaving resolve and reject are called once at most and `fn` at most max(n,0)+1 times; a stopped loop has settled |
| Retry.CancelDecides | pledge-fe/src/utils/retry.ts:65-69 | a timely cancel fixes the outcome, and a further call starts at most once, and only from a wait |
| Retry.CancelLeavesCallIff | pledge-fe/src/utils/retry.ts:60-69 | after a timely cancel another call can start iff the cancel came during a wait |
| Retry.CancelDuringWaitCallsOnceMore | pledge-fe/src/utils/retry.ts:60-61 | a cancel during the wait is followed by one more call |
| Retry.LoopTerminates | pledge-fe/src/utils/retry.ts:40-61 | the loop takes at most 2 max(n,0)+1 steps in any run and has stopped after that many |
| Retry.UncancelledRetry | pledge-fe/src/utils/retry.ts:40-61 | left alone, retry settles with the first attempt that succeeds, must not be retried or uses up the retries, after calling up to it |
| ChunkArray.EveryListIsChunked | pledge-fe/src/utils/chunkArray.ts:3-11 | for every list and maximum: an error iff the maximum is below one; else the chunks join to the list, none above the maximum, and a list within it, empty or not, is its own only chunk |
| ChunkArray.ChunkingIsExact | pledge-fe/src/utils/chunkArray.ts:7-10 | a longer list gives ceil(len/max) chunks, all but the last of common size ceil(len/num), the last not empty |
| ChunkArray.FewestChunks | pledge-fe/src/utils/chunkArray.ts:5-7 | no cut of a non-empty list within the maximum has fewer chunks |
| ChunkArray.SmallestLargestChunk | pledge-fe/src/utils/chunkArray.ts:8 | no cut into as many chunks has a smaller largest chunk |
| ChunkArray.EvenIff | pledge-fe/src/utils/chunkArray.ts:2-10 | chunk sizes differ by one at most iff the list fits one chunk or at most one place stays free |
| ChunkArray.TenByFourIsUneven | pledge-fe/src/utils/chunkArray.ts:2 | ten items by four give 4, 4 and 2 |
| Trades.CandidatesExactly | pledge-fe/src/hooks/Trades.ts:18-63 | a pair is a candidate iff its addresses differ, neither token has a custom-base list without the other, and it is the direct pair, an end against a base, or two bases |
| Trades.NoEntryNoFilter | pledge-fe/src/hooks/Trades.ts:50-55 | with no entry for either token, as in the repository's own setting, different addresses suffice |
| Trades.NoEndNoCandidates | pledge-fe/src/hooks/Trades.ts:30-62 | a missing end gives no candidates |
| Trades.DirectPairFirst | pledge-fe/src/hooks/Trades.ts:33-34 | an admitted direct pair is the first candidate |
| Trades.FilterInOrder | pledge-fe/src/hooks/Trades.ts:42-60 | filtering keeps exactly the pairs that pass, in order and each place once |
| Trades.PermittedIff | pledge-fe/src/hooks/Trades.ts:47-60 | the custom-base filter, whichever way round the pair is, is that each listed token's bases contain the other |
| Trades.RouteHopsCovered | pledge-fe/src/hooks/Trades.ts:30-63 | a hop of any route over the bases is a candidate in some orientation iff its addresses differ and each listed token's bases contain the other |
| Trades.Deduplicate | pledge-fe/src/hooks/Trades.ts:68-81 | the reduce keeps, in order, the pairs whose address has not occurred before |
| Trades.FirstsInOrder | pledge-fe/src/hooks/Trades.ts:75-78 | the result lists in list order exactly the first pair of each address |
| Trades.FirstsCover | pledge-fe/src/hooks/Trades.ts:75-78 | no address is lost or repeated |
| Trades.CommonPairsExactly | pledge-fe/src/hooks/Trades.ts:65-82 | the result has exactly the addresses of the existing pools of candidates, each once |
| Trades.RouteHopHasOnePool | pledge-fe/src/hooks/Trades.ts:30-82 | every hop of a route that is admitted so and has a pool is served by exactly one listed pool |
| NumericInput.UnescapeEscape | pledge-fe/src/utils/index.ts:98-100 | escaping has a left inverse |
| NumericInput.EscapeIsInjective | pledge-fe/src/utils/index.ts:98-100 | different texts escape differently |
| NumericInput.EscapeCharacter | pledge-fe/src/utils/index.ts:98-100 | exactly the characters with a meaning in a regular expression get a backslash |
| NumericInput.EscapeConcat | pledge-fe/src/utils/index.ts:98-100 | escaping works character by character |
| NumericInput.ForwardedIff | pledge-fe/src/components/NumericalInput/index.tsx:45-63 | typed text is forwarded, commas read as points, iff that gives digits with at most one point |
| NumericInput.ForwardedExactly | pledge-fe/src/components/NumericalInput/index.tsx:45-63 | character by character: only digits, points and commas, at most one of the latter two; forwarded with points for commas |
| NumericInput.ForwardedMeansDeclaredPattern | pledge-fe/src/components/NumericalInput/index.tsx:71-80 | the handler accepts exactly the texts of the element's declared pattern |
| ParamTokenizer.ParamParser.Fill | pledge-backend/api/validate/validateFuncs.go:100-106 | the locked section stores and returns the parse |
| ParamTokenizer.ParamParser.ParseOnlyOneParam | pledge-backend/api/validate/validateFuncs.go:95-109 | from any memo built by earlier calls the answer is the uncached parse |
| ParamTokenizer.ParsePrinted | pledge-backend/api/validate/validateFuncs.go:14-15 | printing words, quoted or bare, with white space behind them and parsing gives the words back |
| ParamTokenizer.QuotedRoundTrip | pledge-backend/api/validate/validateFuncs.go:101-104 | any list of quote-free words in single quotes, one space behind each, survives parsing |
| ParamTokenizer.QuoteInWord | pledge-backend/api/validate/validateFuncs.go:101-104 | a quote inside a word, or never closed, does not split it and is dropped |
| ParamTokenizer.SeparatesIff | pledge-backend/api/validate/validateFuncs.go:14-15 | a character separates two words iff it is one of the five white-space characters |
| ParamTokenizer.NoWordsIff | pledge-backend/api/validate/validateFuncs.go:75-78 | the parse is empty, and the caller panics, iff the text is white space |
| Prices.FeeOverRoute | pledge-fe/src/utils/prices.ts:22-29 | over k hops the fee is 1-0.998^k, in [0,1) and at most 0.2% per hop |
| Prices.FeeGrows | pledge-fe/src/utils/prices.ts:25-28 | every further hop raises the fee |
| Prices.RetainedMultiplies | pledge-fe/src/utils/prices.ts:25-28 | what two routes retain multiplies when they are joined |
| Prices.FeeAmountRoundsDown | pledge-fe/src/utils/prices.ts:40-45 | the amount is the exact fee of the input rounded down |
| Prices.FeeAmountWithinInput | pledge-fe/src/utils/prices.ts:40-45 | the amount is not negative and less than any positive input |
| Prices.FeeAmountWithinHops | pledge-fe/src/utils/prices.ts:40-45 | the amount is at most 0.2% of the input per hop |
| Breakpoints.MediaQueries | pledge-fe/src/hooks/useMatchBreakpoints.ts:20-37 | range i runs from behind breakpoint i-1 to breakpoint i, the last without end |
| Breakpoints.ExactlyOneIff | pledge-fe/src/hooks/useMatchBreakpoints.ts:20-37 | for breakpoints that do not descend, a width, whole or not, is in exactly one range iff it is not strictly between a breakpoint and the next pixel |
| Breakpoints.PartitionIff | pledge-fe/src/hooks/useMatchBreakpoints.ts:20-37 | the ranges partition the whole widths iff the breakpoints but the last do not descend |
| Breakpoints.DeviceByWidth | pledge-fe/src/hooks/useMatchBreakpoints.ts:83-88 | every whole width is exactly one of mobile (to 576), tablet (to 968) and desktop |

## Left out

- The Solidity contracts: their source is not part of this model, and neither are the generated bindings.
- MiniRpcCode.MiniRpcProvider.Request: the callback wrapper `sendAsync`, which re-labels an outcome with the caller's id, and the hexadecimal text of the chain id are not modelled.
- Retry.Retrier.ResumeAfterWait: the length of the random wait is not modelled, only that it ends.
- TokenJobs.TokenJobs.SaveData: `updated_at`, `created_at` and `abi_file_exist` of token rows are not modelled; the three save functions differ only in the fields they set and share this method.
- TokenJobs.TokenJobs.CheckTokenInfo: cached JSON always parses, since only these jobs write it.
- PoolServiceCode.PoolService.UpdatePoolInfo: the key columns `id`, `pool_id` and `chain_id` are the map key, and the number of pools is the length of the list of turns.
- PoolSyncTheorems.SkippingRefinesAlwaysWriting: covers the columns filled from chain and token cache; the two symbol columns and the time stamps are rewritten by saves only, so skipping leaves them older.
- SchedulerCoherence.SchedulerCoherent: jobs run one after another; two jobs interleaving inside one check-and-save pair are not modelled.
- PoolListing.LostFieldsIff: two API fields are tagged `pool_id` (poolBases.go:29 and :32); whether the ORM fills the second as well is not decided by the repository and is the parameter `fillsTwice`.
- ParamTokenizer.ParamParser.Fill: the read-write lock is modelled as two atomic sections that each keep `Valid`; the aliasing of returned slices is not.
- NumericInput.ForwardedIff: characters are compared one by one; Unicode normalisation plays no part.
- `calculateSlippageAmount` (utils/index.ts) and the choice of a gas estimate (useSwapCallback.ts): they would add short arithmetic and one-case facts only.
- Real HTTP, Redis, MySQL, Ethereum, e-mail and logging calls, React rendering, wallet connectors, routes, validators and controllers.
