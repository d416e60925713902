# World streaming, inventory, networking rules and admin API gate — a Dafny model

This project models the logic core of a Unity game and of its Next.js
administration site, and proves what that logic promises.

- **World streaming.** These parts decide, as the player moves, which square chunks of the world to load and unload, in what order, at what level of detail and within what memory budget:
  - `ChunkCoord`, `ChunkGrid` and `ChunkData`;
  - the `ChunkLoader` state machine, with its binary min-heap `LoadQueue`;
  - `LODController`, `MemoryBudgetMonitor` and the per-frame `WorldStreamer`;
  - the `WorldStreamerSettings` validation.
- **Inventory.**
  - The fixed-size slot `Inventory`: adding with stack-then-fill, removing, moving, swapping and sorting.
  - The save-data serializer, the manager that applies save data back, and the item database's id index.
- **Networking rules.**
  - The retry-and-backoff helper for web requests, and the backend connection settings.
  - The network settings clamps.
  - The offline/online mode switch and its gameplay guard.
  - Spawn-point allocation for the local player.
- **Admin site.**
  - The API gate in the middleware.
  - The base64url session token and its expiry.
  - E-mail masking in the assistant's tool output.
  - The request schemas.
  - The pagination and ordering arithmetic of the items and players routes.

There is one Dafny module per source file. Pure source code becomes datatypes, functions and lemmas. Code that mutates state becomes classes whose methods are proved against specification functions:
- The chunk loader: each method changes `LoaderView` exactly as a function says.
- The inventory: each method rewrites its slot array exactly as a function on the slot sequence says.

Lemmas then state the promised properties of those functions:
- conservation of units;
- stack limits;
- heap order;
- bounded retries;
- the protected purge radius;
- the save/load round trip;
- the base64url round trip.

Outside effects are inputs to the model:
- **Asset system.** The catalog is a set of ids, the completion of loads is a `poll` function, and whether starting a load throws is an oracle sequence.
- **Clock.** Passed as a parameter.
- **Photon calls.** Recorded as a log of the calls made.
- **Cryptography.** AES-GCM decryption together with JSON parsing is an `Opener` function.
- **Format tests.** The e-mail and URL format tests are parameters.

Two behaviours of the loader are stated as the code has them:
- **`EnqueueLoad` does not deduplicate.** It checks the cache, the loading set and the pending handles, not the queue, so a coordinate enqueued twice is queued twice (`ChunkLoaderProperties.EnqueueTwiceQueuesTwice`), and its second start replaces the first handle (`ChunkLoaderProperties.SecondStartReplacesHandle`).
- **A successful load keeps its retry counter.** The completion path leaves the retry counters alone, so a load that succeeds after failures keeps the count it reached; only giving up on the coordinate or unloading it drops the counter (`ChunkLoaderProperties.SuccessKeepsRetryCount`).

## Model

| member | source | states |
|---|---|---|
| ChunkCoords.IntToString | Test/Assets/Scripts/WorldStreaming/ChunkCoord.cs:26 | the decimal text of an int is non-empty and starts with '-' exactly for negatives |
| ChunkCoords.IntToStringInjective | Test/Assets/Scripts/WorldStreaming/ChunkCoord.cs:26 | distinct integers render to distinct decimal texts |
| Text.NatToStringInjective | Test/Assets/Scripts/WorldStreaming/ChunkCoord.cs:26 | distinct natural numbers render to distinct digit strings |
| ChunkCoords.IntToStringHasNoUnderscore | Test/Assets/Scripts/WorldStreaming/ChunkCoord.cs:26 | a rendered integer never contains the '_' separator of the chunk id |
| ChunkCoords.ToChunkId | Test/Assets/Scripts/WorldStreaming/ChunkCoord.cs:24-27 | every chunk id starts with the prefix "chunk_" |
| ChunkCoords.ToChunkIdInjective | Test/Assets/Scripts/WorldStreaming/ChunkCoord.cs:24-27 | two cells with the same id are the same cell, so ids can key chunk sets |
| ChunkCoords.ToChunkIdExamples | Test/Assets/Scripts/WorldStreaming/ChunkCoord.cs:24-27 | (1, 2) is "chunk_1_2" and (-1, -2) is "chunk_-1_-2" |
| ChunkCoords.SplitAtSeparator | Test/Assets/Scripts/WorldStreaming/ChunkCoord.cs:26 | an id parses back uniquely at its first '_' when the left part has none |
| ChunkCoords.Distance | Test/Assets/Scripts/WorldStreaming/ChunkCoord.cs:58-61 | the distance is the larger of the two absolute coordinate differences |
| ChunkCoords.DistanceSymmetric | Test/Assets/Scripts/WorldStreaming/ChunkCoord.cs:58-61 | the Chebyshev distance is symmetric |
| ChunkCoords.DistanceZeroIffEqual | Test/Assets/Scripts/WorldStreaming/ChunkCoord.cs:58-61 | the distance is zero exactly for equal cells |
| ChunkCoords.DistanceTriangle | Test/Assets/Scripts/WorldStreaming/ChunkCoord.cs:58-61 | the Chebyshev distance obeys the triangle inequality |
| ChunkCoords.DistanceExample | Test/Assets/Scripts/WorldStreaming/ChunkCoord.cs:58-61 | (0, 0) and (3, 4) are 4 apart |
| ChunkCoords.CoordEqualsIsIdentity | Test/Assets/Scripts/WorldStreaming/ChunkCoord.cs:63-91 | the struct equality and the == / != operators coincide with value identity |
| ChunkCoords.WorldCenter | Test/Assets/Scripts/WorldStreaming/ChunkCoord.cs:32-37 | the centre of a cell lies on the ground plane (y = 0) |
| ChunkCoords.WorldMin | Test/Assets/Scripts/WorldStreaming/ChunkCoord.cs:42-45 | the minimum corner lies on the ground plane |
| ChunkCoords.WorldMax | Test/Assets/Scripts/WorldStreaming/ChunkCoord.cs:50-53 | the maximum corner lies on the ground plane |
| ChunkCoords.CellBoxGeometry | Test/Assets/Scripts/WorldStreaming/ChunkCoord.cs:32-53 | a cell's box is one chunk wide on both axes and its centre lies halfway between its corners |
| ChunkCoords.WorldCenterExample | Test/Assets/Scripts/WorldStreaming/ChunkCoord.cs:32-37 | cell (1, 2) at size 100 is centred at (150, 0, 250) |
| ChunkGrids.FloorCell | Test/Assets/Scripts/WorldStreaming/ChunkGrid.cs:26-27 | the floor of v / s is k exactly when k*s <= v < (k+1)*s |
| ChunkGrids.GetChunkCoord | Test/Assets/Scripts/WorldStreaming/ChunkGrid.cs:24-29 | the cell of a position spans it on both planar axes: k * size <= coordinate < (k + 1) * size |
| ChunkGrids.GetChunkCoordIsContainingCell | Test/Assets/Scripts/WorldStreaming/ChunkGrid.cs:24-29 | a position maps to cell c exactly when it lies in c's world box, min inclusive and max exclusive |
| ChunkGrids.GetChunkCoordExamples | Test/Assets/Scripts/WorldStreaming/ChunkGrid.cs:24-29 | positions on negative coordinates and on exact cell borders map to the expected cells |
| ChunkGrids.GetChunkIdSameIffSameCell | Test/Assets/Scripts/WorldStreaming/ChunkGrid.cs:34-37 | two positions share a chunk id exactly when they share a cell |
| ChunkGrids.NeighbourhoodIsDistanceBall | Test/Assets/Scripts/WorldStreaming/ChunkGrid.cs:39-57 | the square of radius r is exactly the set of cells within Chebyshev distance r |
| ChunkGrids.BlockSize | Test/Assets/Scripts/WorldStreaming/ChunkGrid.cs:48-54 | the cells of a rectangle number width times height |
| ChunkGrids.NeighbourhoodSize | Test/Assets/Scripts/WorldStreaming/ChunkGrid.cs:43-57 | radius r >= 0 gives (2r+1)^2 cells; a negative radius gives none |
| ChunkGrids.SquareAround | Test/Assets/Scripts/WorldStreaming/ChunkGrid.cs:48-54 | the nested loops collect exactly the square of cells around the centre |
| ChunkGrids.GetSurroundingChunks | Test/Assets/Scripts/WorldStreaming/ChunkGrid.cs:43-57 | the result holds exactly the cells within the radius of the cell holding the position |
| ChunkGrids.GetChunkDifference | Test/Assets/Scripts/WorldStreaming/ChunkGrid.cs:63-74 | the cells to load are new and wanted; the cells to unload are old and no longer wanted |
| ChunkGrids.GetChunkDifferenceReconstructs | Test/Assets/Scripts/WorldStreaming/ChunkGrid.cs:63-74 | removing the unloads from the old set and adding the loads gives exactly the new set; no cell is in both |
| ChunkDatas.LodValue | Test/Assets/Scripts/WorldStreaming/ChunkData.cs:43-48 | the detail levels carry the enum values 0 to 2 |
| ChunkDatas.LodValueOrder | Test/Assets/Scripts/WorldStreaming/ChunkData.cs:43-48 | the enum values order High < Medium < Low and are distinct |
| ChunkDatas.ChunkData.constructor | Test/Assets/Scripts/WorldStreaming/ChunkData.cs:18-26 | a new record is Unloaded at Low detail, stamped with the clock, with no memory estimate and no root |
| ChunkDatas.ChunkData.UpdateLastAccess | Test/Assets/Scripts/WorldStreaming/ChunkData.cs:28-31 | only the access stamp changes, to the clock reading |
| LodControllers.LevelForDistance | Test/Assets/Scripts/WorldStreaming/LODController.cs:25-38 | High exactly within the load radius, Medium exactly beyond it and within the medium radius, Low exactly beyond both |
| LodControllers.GetLodLevel | Test/Assets/Scripts/WorldStreaming/LODController.cs:21-38 | the same three-way rule on the Chebyshev distance from the player's cell to the chunk |
| LodControllers.LevelCoarsensWithDistance | Test/Assets/Scripts/WorldStreaming/LODController.cs:25-38 | a farther chunk never gets a finer level, for any radii |
| LodControllers.LowRadiusNotConsulted | Test/Assets/Scripts/WorldStreaming/LODController.cs:21-38 | the low radius setting has no effect on the chosen level |
| LodControllers.LoadedSquareIsHigh | Test/Assets/Scripts/WorldStreaming/LODController.cs:21-38 | every chunk inside the load square around the player is at High detail |
| StreamerSettings.ValidatedInBounds | Test/Assets/Scripts/WorldStreaming/WorldStreamerSettings.cs:75-88 | after validation every bound holds, including load radius <= unload radius and load <= medium <= low radius |
| StreamerSettings.ValidatedFixesExactlyInBounds | Test/Assets/Scripts/WorldStreaming/WorldStreamerSettings.cs:75-88 | validation leaves the settings unchanged exactly when they already satisfy every bound |
| StreamerSettings.ValidatedIdempotent | Test/Assets/Scripts/WorldStreaming/WorldStreamerSettings.cs:75-88 | validating twice is the same as validating once |
| StreamerSettings.ValidatedKeepsFieldsInRange | Test/Assets/Scripts/WorldStreaming/WorldStreamerSettings.cs:75-88 | a field that already meets its bound, measured against the already clamped fields, is kept; the three flags are never touched |
| StreamerSettings.DefaultsInBounds | Test/Assets/Scripts/WorldStreaming/WorldStreamerSettings.cs:14-58 | the initial field values already satisfy every bound, so validation keeps them |
| StreamerSettings.BudgetBytes | Test/Assets/Scripts/WorldStreaming/WorldStreamerSettings.cs:68 | the byte budget is the megabyte figure scaled by 1024 * 1024, at least 100 MB once validated |
| StreamerSettings.WorldStreamerSettings.constructor | Test/Assets/Scripts/WorldStreaming/WorldStreamerSettings.cs:14-58 | a new asset holds the initial field values |
| StreamerSettings.WorldStreamerSettings.MemoryBudgetBytes | Test/Assets/Scripts/WorldStreaming/WorldStreamerSettings.cs:68 | the getter agrees with the byte budget of the current fields |
| StreamerSettings.WorldStreamerSettings.ClampStreaming | Test/Assets/Scripts/WorldStreaming/WorldStreamerSettings.cs:77-82 | the first six clamps rewrite exactly the grid, radius, load and retry fields, the unload radius against the new load radius |
| StreamerSettings.WorldStreamerSettings.ClampDetail | Test/Assets/Scripts/WorldStreaming/WorldStreamerSettings.cs:83-87 | the remaining clamps rewrite the detail radii against the already clamped load radius, then the budget, protected radius and fade |
| StreamerSettings.WorldStreamerSettings.OnValidate | Test/Assets/Scripts/WorldStreaming/WorldStreamerSettings.cs:75-88 | the new fields are the validated old fields, so every bound lemma above applies to the asset |
| Wrappers.TruncateToInt | Test/Assets/Scripts/WorldStreaming/MemoryBudgetMonitor.cs:15 | a cast to an integer truncates toward zero on both signs |
| MemoryBudgetMonitors.MemoryBudgetMonitor.constructor | Test/Assets/Scripts/WorldStreaming/MemoryBudgetMonitor.cs:18-23 | a new monitor has measured nothing: its total is 0 |
| MemoryBudgetMonitors.MemoryBudgetMonitor.MemoryBudgetBytes | Test/Assets/Scripts/WorldStreaming/MemoryBudgetMonitor.cs:15 | the budget is the settings' byte budget truncated to whole bytes |
| MemoryBudgetMonitors.MemoryBudgetMonitor.Update | Test/Assets/Scripts/WorldStreaming/MemoryBudgetMonitor.cs:28-31 | the cached total becomes the loader's total estimate, and the budget counts as exceeded exactly when that total is strictly over it |
| MemoryBudgetMonitors.MemoryBudgetMonitor.PurgeIfNeeded | Test/Assets/Scripts/WorldStreaming/MemoryBudgetMonitor.cs:36-53 | within budget nothing changes; over budget the loader evicts in access order around the player's cell, sparing the protected radius, and the cached total is what the purge reports |
| ChunkLoaders.EnqueueLoadSpec | Test/Assets/Scripts/WorldStreaming/ChunkLoader.cs:42-50 | a coordinate is queued only when it is neither cached, loading nor pending; the queue is not consulted, and the loading set stays the pending keys |
| ChunkLoaders.HandleLoadFailureSpec | Test/Assets/Scripts/WorldStreaming/ChunkLoader.cs:161-184 | a failure counts one more attempt and keeps the cache keys and handles; below the limit it re-queues at the largest priority, at the limit it marks the record Failed and drops the counter, or throws when the record is gone |
| ChunkLoaders.StartLoadSpec | Test/Assets/Scripts/WorldStreaming/ChunkLoader.cs:77-117 | a start adds at most its own coordinate to the loading set and keeps the loading set equal to the pending keys |
| ChunkLoaders.CompletionSpec | Test/Assets/Scripts/WorldStreaming/ChunkLoader.cs:133-159 | a completion retires exactly the coordinate's handle and its loading mark |
| ChunkLoaders.HandleLoadFailureBounds | Test/Assets/Scripts/WorldStreaming/ChunkLoader.cs:161-184 | a failure issues no handle, forgets no missing id, and queues nothing but the retry itself |
| ChunkLoaders.StartLoadBounds | Test/Assets/Scripts/WorldStreaming/ChunkLoader.cs:77-117 | a start issues at most the next handle, to its coordinate only, forgets no missing id, and re-queues only when the start threw |
| ChunkLoaders.StartLoadIssues | Test/Assets/Scripts/WorldStreaming/ChunkLoader.cs:77-117 | a start reuses no handle number and grows the queue by at most the retry of a throwing start |
| ChunkLoaders.CompletionBounds | Test/Assets/Scripts/WorldStreaming/ChunkLoader.cs:133-159 | a completion issues no handle and forgets no missing id |
| ChunkLoaders.UnloadSpec | Test/Assets/Scripts/WorldStreaming/ChunkLoader.cs:188-208 | an unload drops exactly the coordinate's record and keeps the loading set equal to the pending keys |
| ChunkLoaders.UnloadEach | Test/Assets/Scripts/WorldStreaming/ChunkLoader.cs:214-218 | unloading a list of coordinates keeps the loading set equal to the pending keys |
| ChunkLoaders.TotalMemoryRemove | Test/Assets/Scripts/WorldStreaming/ChunkLoader.cs:267-275 | the memory total does not depend on the order in which the records are summed |
| ChunkLoaders.TicksLeIsTotalPreorder | Test/Assets/Scripts/WorldStreaming/ChunkLoader.cs:246 | the purge's comparison by access stamp is a total preorder, so the sort is well defined |
| ChunkLoaders.PurgeScan | Test/Assets/Scripts/WorldStreaming/ChunkLoader.cs:248-260 | the purge loop evicts only entries it walked and never a protected one |
| ChunkLoaders.Unprotected | Test/Assets/Scripts/WorldStreaming/ChunkLoader.cs:255 | the candidates for eviction are exactly the walked entries outside the protected square |
| ChunkLoaders.PurgeScanEvictsShortestPrefix | Test/Assets/Scripts/WorldStreaming/ChunkLoader.cs:248-262 | the purge evicts the shortest prefix of the unprotected entries in access order that brings the total within budget, or all of them, and then reports a total still over budget |
| ChunkLoaders.EvictionStep | Test/Assets/Scripts/WorldStreaming/ChunkLoader.cs:248-260 | evicting one more entry from a total over budget extends a shortest-prefix eviction by one |
| ChunkLoaders.UnloadEachRecords | Test/Assets/Scripts/WorldStreaming/ChunkLoader.cs:214-218 | unloading a list drops exactly the listed records |
| ChunkLoaders.UnloadEachKeepsInFlight | Test/Assets/Scripts/WorldStreaming/ChunkLoader.cs:188-208 | unloading never touches handles, the loading set, missing ids, the queue or the handle counter |
| ChunkLoaders.SortedListingIsAccessOrder | Test/Assets/Scripts/WorldStreaming/ChunkLoader.cs:245-246 | sorting a listing of every cached record by access stamp yields an access order of the cache |
| ChunkLoaders.CompleteEach | Test/Assets/Scripts/WorldStreaming/ChunkLoader.cs:66-69 | completing a list of coordinates keeps the loading set equal to the pending keys and, without KeyNotFound, retires exactly their handles |
| ChunkLoaders.DequeueStart | Test/Assets/Scripts/WorldStreaming/ChunkLoader.cs:72-73 | removing a queued item and starting it adds at most its coordinate to the loading set and keeps the loading set equal to the pending keys |
| ChunkLoaders.StartEach | Test/Assets/Scripts/WorldStreaming/ChunkLoader.cs:70-74 | starting a list of dequeued items keeps the loading set equal to the pending keys |
| ChunkLoaders.StartStep | Test/Assets/Scripts/WorldStreaming/ChunkLoader.cs:70-74 | one more start under the cap on a least-distance item extends the start fold, reuses no handle number, grows the loading set by at most one and shrinks the queue unless the start threw |
| ChunkLoaders.ChunkLoader.PendingLoadCount | Test/Assets/Scripts/WorldStreaming/ChunkLoader.cs:23 | the pending count is the number of queued loads |
| ChunkLoaders.ChunkLoader.constructor | Test/Assets/Scripts/WorldStreaming/ChunkLoader.cs:27-37 | a new loader keeps the settings object it reads its cap and retry limit from, and has no records, handles, loading marks, retry counters, missing ids or queued loads |
| ChunkLoaders.ChunkLoader.SetState | Test/Assets/Scripts/WorldStreaming/ChunkLoader.cs:105 | only the state of one cached record changes |
| ChunkLoaders.ChunkLoader.Requeue | Test/Assets/Scripts/WorldStreaming/ChunkLoader.cs:168-172 | the counter is written and the coordinate queued at the largest priority; nothing else changes |
| ChunkLoaders.ChunkLoader.IssueHandle | Test/Assets/Scripts/WorldStreaming/ChunkLoader.cs:97-99 | the next handle becomes the coordinate's pending load and the coordinate is marked loading |
| ChunkLoaders.ChunkLoader.EnsureCached | Test/Assets/Scripts/WorldStreaming/ChunkLoader.cs:101-104 | a fresh record is created only when none is cached for the coordinate |
| ChunkLoaders.ChunkLoader.CompleteLoad | Test/Assets/Scripts/WorldStreaming/ChunkLoader.cs:145-148 | the record receives the instance, becomes Loaded and is stamped; nothing else changes |
| ChunkLoaders.ChunkLoader.EnqueueLoad | Test/Assets/Scripts/WorldStreaming/ChunkLoader.cs:42-50 | the new state is the one the enqueue rule prescribes |
| ChunkLoaders.ChunkLoader.HandleLoadFailure | Test/Assets/Scripts/WorldStreaming/ChunkLoader.cs:161-184 | the new state and outcome are those of the failure rule, including the throw on a missing record |
| ChunkLoaders.ChunkLoader.StartLoad | Test/Assets/Scripts/WorldStreaming/ChunkLoader.cs:77-117 | the new state and outcome are those of the start rule |
| ChunkLoaders.ChunkLoader.ProcessLoadCompletion | Test/Assets/Scripts/WorldStreaming/ChunkLoader.cs:133-159 | the new state and outcome are those of the completion rule |
| ChunkLoaders.ChunkLoader.Unload | Test/Assets/Scripts/WorldStreaming/ChunkLoader.cs:188-208 | the record and its counter are dropped and its instance released; pending handles are untouched |
| ChunkLoaders.ChunkLoader.UpdateChunkAccess | Test/Assets/Scripts/WorldStreaming/ChunkLoader.cs:279-285 | a cached record is stamped with the clock; an uncached coordinate changes nothing |
| ChunkLoaders.ChunkLoader.CalculateTotalMemory | Test/Assets/Scripts/WorldStreaming/ChunkLoader.cs:267-275 | the loop's sum is the total memory estimate of all records |
| ChunkLoaders.ChunkLoader.CacheEntries | Test/Assets/Scripts/WorldStreaming/ChunkLoader.cs:245 | the copy lists every cached record exactly once, with its stamp and estimate |
| ChunkLoaders.ChunkLoader.PurgeExcessMemory | Test/Assets/Scripts/WorldStreaming/ChunkLoader.cs:228-263 | within budget nothing changes; over budget it walks the records in access order and unloads what the purge loop evicts, returning the loop's total |
| ChunkLoaders.ChunkLoader.EvictInOrder | Test/Assets/Scripts/WorldStreaming/ChunkLoader.cs:248-260 | the loop evicts exactly what the purge rule evicts and ends with its total |
| ChunkLoaders.ChunkLoader.EvictEntry | Test/Assets/Scripts/WorldStreaming/ChunkLoader.cs:257-258 | one eviction unloads the entry after those already evicted |
| ChunkLoaders.ChunkLoader.UnloadAll | Test/Assets/Scripts/WorldStreaming/ChunkLoader.cs:212-224 | every cached chunk is unloaded, then the queue, handles, loading marks, counters and missing ids are emptied |
| ChunkLoaders.ChunkLoader.ClearInFlight | Test/Assets/Scripts/WorldStreaming/ChunkLoader.cs:219-223 | the queue, handles, loading marks, counters and missing ids are emptied; the cache is kept |
| ChunkLoaders.ChunkLoader.Update | Test/Assets/Scripts/WorldStreaming/ChunkLoader.cs:54-75 | the new state and outcome are the completion rule applied over `done` and then, unless that raised KeyNotFound, the dequeue-and-start rule over `starts`; `done` lists done pending handles without repetition, all of them unless KeyNotFound; each start runs under the cap on a queued item of least distance, the k-th throwing as the oracle says; after a normal frame no done handle is pending and the queue is empty or the cap reached, and the loading set never grows past the cap |
| ChunkLoaders.ChunkLoader.RetireDone | Test/Assets/Scripts/WorldStreaming/ChunkLoader.cs:56-69 | the new state and outcome are the completion rule applied over `done`, the done pending handles without repetition, all of them unless a completion raised KeyNotFound; the loading set only shrinks |
| ChunkLoaders.ChunkLoader.StartQueued | Test/Assets/Scripts/WorldStreaming/ChunkLoader.cs:70-74 | the new state and outcome are the dequeue-and-start rule applied over `starts`, each under the cap on a queued item of least distance, the k-th throwing as the oracle says; a normal end leaves the queue empty or the cap reached |
| ChunkLoaders.ChunkLoader.CompletedLoads | Test/Assets/Scripts/WorldStreaming/ChunkLoader.cs:56-64 | the list holds, without repetition, exactly the pending coordinates whose handles are done |
| ChunkLoaders.ChunkLoader.RetireEach | Test/Assets/Scripts/WorldStreaming/ChunkLoader.cs:66-69 | the listed coordinates are completed in order, stopping at the first KeyNotFound; the state is the completion rule applied over the ones processed |
| ChunkLoaders.ChunkLoader.RetireOne | Test/Assets/Scripts/WorldStreaming/ChunkLoader.cs:68 | completing one more coordinate applies the completion rule once more and drops its handle and loading mark |
| ChunkLoaders.ChunkLoader.StartOne | Test/Assets/Scripts/WorldStreaming/ChunkLoader.cs:72-73 | one more start applies the dequeue-and-start rule to a queued item of least distance, growing the loading set by at most one |
| ChunkLoaders.ChunkLoader.DequeueNext | Test/Assets/Scripts/WorldStreaming/ChunkLoader.cs:72 | the coordinate returned is that of a queued item of least distance, and only that item leaves the queue |
| ChunkLoaderProperties.EnqueueQueuesIffAbsent | Test/Assets/Scripts/WorldStreaming/ChunkLoader.cs:42-50 | a load is queued exactly when the coordinate is neither cached, loading nor pending, and otherwise nothing changes |
| ChunkLoaderProperties.EnqueueTwiceQueuesTwice | Test/Assets/Scripts/WorldStreaming/ChunkLoader.cs:42-50 | the queue is not deduplicated: enqueueing an absent coordinate twice queues it twice |
| ChunkLoaderProperties.SecondStartReplacesHandle | Test/Assets/Scripts/WorldStreaming/ChunkLoader.cs:97-99 | starting a coordinate that already has a pending load overwrites its handle with a new one |
| ChunkLoaderProperties.StartOfMissingIdDrops | Test/Assets/Scripts/WorldStreaming/ChunkLoader.cs:81-94 | an id known missing, or one no locator finds, starts nothing and is remembered as missing |
| ChunkLoaderProperties.FailuresBelowLimit | Test/Assets/Scripts/WorldStreaming/ChunkLoader.cs:161-177 | below the limit the k-th consecutive failure leaves count k and k retries queued at the largest priority, and the record untouched |
| ChunkLoaderProperties.FailsPermanentlyAtLimit | Test/Assets/Scripts/WorldStreaming/ChunkLoader.cs:161-184 | from a clean count a chunk becomes Failed and its counter is dropped on failure max(1, MaxRetries), since the counter is raised before the comparison |
| ChunkLoaderProperties.SuccessKeepsRetryCount | Test/Assets/Scripts/WorldStreaming/ChunkLoader.cs:143-148 | a successful completion leaves the retry counter as it was |
| ChunkLoaderProperties.UnloadKeepsLoadInFlight | Test/Assets/Scripts/WorldStreaming/ChunkLoader.cs:188-208 | unloading keeps the coordinate's pending handle and loading mark |
| ChunkLoaderProperties.CompletionAfterUnloadThrows | Test/Assets/Scripts/WorldStreaming/ChunkLoader.cs:143-148 | a load that succeeds after its chunk was unloaded indexes the absent record and ends with KeyNotFound, after the handle is retired |
| ChunkLoaderProperties.FailedStartWithoutRecordThrows | Test/Assets/Scripts/WorldStreaming/ChunkLoader.cs:112-116 | a throwing start with no record, once retries are used up, indexes the absent record and ends with KeyNotFound |
| ChunkLoaderProperties.PurgeSparesProtected | Test/Assets/Scripts/WorldStreaming/ChunkLoader.cs:236-259 | records inside the protected square survive a purge unchanged |
| ChunkLoaderProperties.ZeroEstimatesTotalZero | Test/Assets/Scripts/WorldStreaming/ChunkData.cs:24 | with every estimate zero, as records are created, the total is zero |
| ChunkLoaderProperties.ZeroEstimatesPreserved | Test/Assets/Scripts/WorldStreaming/ChunkLoader.cs:42-285 | no loader operation writes a memory estimate, so zero estimates stay zero |
| ChunkLoaderProperties.ZeroEstimatesAfterStart | Test/Assets/Scripts/WorldStreaming/ChunkLoader.cs:77-117 | a start writes no memory estimate |
| ChunkLoaderProperties.ZeroEstimatesAfterCompletion | Test/Assets/Scripts/WorldStreaming/ChunkLoader.cs:133-159 | a completion writes no memory estimate |
| ChunkLoaderProperties.ZeroEstimatesAfterFailure | Test/Assets/Scripts/WorldStreaming/ChunkLoader.cs:161-184 | a failure writes no memory estimate |
| ChunkLoaderProperties.PurgeWithZeroEstimatesIsNoOp | Test/Assets/Scripts/WorldStreaming/ChunkLoader.cs:228-234 | with zero estimates and a non-negative budget a purge unloads nothing and reports zero |
| LoadQueues.RootIsMinimum | Test/Assets/Scripts/WorldStreaming/ChunkLoader.cs:290-331 | the root of the heap carries a minimum distance among all queued entries |
| LoadQueues.RemoveRoot | Test/Assets/Scripts/WorldStreaming/ChunkLoader.cs:321-323 | moving the last entry to the root and dropping the last slot removes exactly the old root |
| LoadQueues.RemoveRootKeepsOrderBelow | Test/Assets/Scripts/WorldStreaming/ChunkLoader.cs:321-328 | after the root is replaced, heap order is broken only at the root |
| LoadQueues.SwapUpStep | Test/Assets/Scripts/WorldStreaming/ChunkLoader.cs:340-350 | swapping an entry smaller than its parent moves the single order break one level up |
| LoadQueues.SwapDownStep | Test/Assets/Scripts/WorldStreaming/ChunkLoader.cs:355-378 | swapping an entry with its smaller child moves the single order break one level down |
| LoadQueues.LoadQueue.Count | Test/Assets/Scripts/WorldStreaming/ChunkLoader.cs:305 | the count is the number of queued entries |
| LoadQueues.LoadQueue.constructor | Test/Assets/Scripts/WorldStreaming/ChunkLoader.cs:303 | a new queue is an empty heap |
| LoadQueues.LoadQueue.Enqueue | Test/Assets/Scripts/WorldStreaming/ChunkLoader.cs:307-312 | the heap stays ordered and gains exactly the new entry |
| LoadQueues.LoadQueue.Dequeue | Test/Assets/Scripts/WorldStreaming/ChunkLoader.cs:314-331 | an empty queue is the InvalidOperationException outcome and stays unchanged; otherwise an entry of minimum distance is removed and its cell returned, and the heap stays ordered |
| LoadQueues.LoadQueue.Clear | Test/Assets/Scripts/WorldStreaming/ChunkLoader.cs:333-336 | the queue becomes empty |
| LoadQueues.LoadQueue.HeapifyUp | Test/Assets/Scripts/WorldStreaming/ChunkLoader.cs:338-351 | sifting up restores heap order without changing the entries |
| LoadQueues.LoadQueue.HeapifyDown | Test/Assets/Scripts/WorldStreaming/ChunkLoader.cs:353-379 | sifting down restores heap order without changing the entries |
| Sorting.SortBy | Test/Assets/Scripts/WorldStreaming/ChunkLoader.cs:246 | sorting with a total preorder yields an ordered permutation of its input |
| Sorting.Insert | Test/Assets/Scripts/Inventory/Core/Inventory.cs:230 | inserting into an ordered list keeps it ordered and adds exactly the element |
| WorldStreamers.EnqueueEach | Test/Assets/Scripts/WorldStreaming/WorldStreamer.cs:108-113 | queuing a list of cells changes only the queue |
| WorldStreamers.EnqueueEachSnoc | Test/Assets/Scripts/WorldStreaming/WorldStreamer.cs:108-113 | queuing one more cell applies the enqueue rule once more, after the others |
| WorldStreamers.LodPass | Test/Assets/Scripts/WorldStreaming/WorldStreamer.cs:138-159 | the detail pass keeps every cache key; each visited Loaded record takes the level for its distance and is stamped; all other records are unchanged |
| WorldStreamers.LodPassStep | Test/Assets/Scripts/WorldStreaming/WorldStreamer.cs:140-158 | visiting one more cell changes at most that cell's record |
| WorldStreamers.WorldStreamer.constructor | Test/Assets/Scripts/WorldStreaming/WorldStreamer.cs:45-83 | start-up builds a grid of the configured chunk size, an empty loader that reads its limits from the same settings object, and a monitor at zero; nothing is tracked |
| WorldStreamers.WorldStreamer.Update | Test/Assets/Scripts/WorldStreaming/WorldStreamer.cs:85-124 | without a player nothing changes; otherwise the tracked set becomes the load square around the player, the loader sees the leaving cells unloaded before the entering cells are queued, then runs its frame; the outcome is the frame's; a KeyNotFound leaves the frame's state and the monitor total as they were; otherwise the detail pass runs over every record, and when the measured total is over budget the purge evicts in access order outside the protected square and the monitor holds the total it reports |
| WorldStreamers.WorldStreamer.Track | Test/Assets/Scripts/WorldStreaming/WorldStreamer.cs:92-113 | the target and the tracked set become the load square around the player's cell; exactly the cells that left are unloaded and then exactly the cells that entered are queued at their distance |
| WorldStreamers.WorldStreamer.SetTarget | Test/Assets/Scripts/WorldStreaming/WorldStreamer.cs:95 | only the target set changes |
| WorldStreamers.WorldStreamer.UnloadLeaving | Test/Assets/Scripts/WorldStreaming/WorldStreamer.cs:101-105 | every leaving cell is unloaded and removed from the tracked set |
| WorldStreamers.WorldStreamer.EnqueueEntering | Test/Assets/Scripts/WorldStreaming/WorldStreamer.cs:108-113 | every entering cell is queued at its priority and added to the tracked set |
| WorldStreamers.WorldStreamer.SetLod | Test/Assets/Scripts/WorldStreaming/WorldStreamer.cs:150 | only the detail level of one record changes |
| WorldStreamers.WorldStreamer.UpdateLod | Test/Assets/Scripts/WorldStreaming/WorldStreamer.cs:138-159 | the records become those of the detail pass over every cached cell; nothing else in the loader changes |
| WorldStreamers.WorldStreamer.LoadAndSettle | Test/Assets/Scripts/WorldStreaming/WorldStreamer.cs:116-123 | the loader frame runs; a KeyNotFound ends the frame with the monitor untouched, otherwise the detail pass and the memory check follow |
| WorldStreamers.WorldStreamer.Settle | Test/Assets/Scripts/WorldStreaming/WorldStreamer.cs:119-123 | after the detail pass the total is measured; within budget nothing is evicted, over budget the purge evicts the shortest access-order prefix of unprotected records and the monitor holds the total it reports |
| WorldStreamers.WorldStreamer.LodAndMeasure | Test/Assets/Scripts/WorldStreaming/WorldStreamer.cs:119-122 | the records become those of the detail pass and the monitor total is their memory estimate |
| WorldStreamers.LodView | Test/Assets/Scripts/WorldStreaming/WorldStreamer.cs:138-159 | the detail pass changes only records, and keeps every cache key |
| WorldStreamers.SettledIntro | Test/Assets/Scripts/WorldStreaming/WorldStreamer.cs:119-123 | a measurement within budget that evicts nothing, or over budget that purges along an access order, is a settled frame |
| WorldStreamers.WorldStreamer.VisitLod | Test/Assets/Scripts/WorldStreaming/WorldStreamer.cs:142-157 | one record is updated as the detail pass prescribes |
| WorldStreamers.WorldStreamer.VisitNext | Test/Assets/Scripts/WorldStreaming/WorldStreamer.cs:140-158 | visiting one more cached cell turns the records into those of the detail pass over one more cell |
| WorldStreamers.WorldStreamer.Reset | Test/Assets/Scripts/WorldStreaming/WorldStreamer.cs:164-172 | the loader is emptied of records and in-flight state and nothing is tracked or targeted |
| WorldStreamers.LoadedChunkCountIsSquareSize | Test/Assets/Scripts/WorldStreaming/WorldStreamer.cs:176 | right after a frame, the loaded count is (2r+1)^2 for the load radius r, or 0 for a negative radius |
| InventorySlots.MaxStack | Test/Assets/Scripts/Inventory/Data/ItemDefinition.cs:34 | the stack limit is at least 1 and equals the serialized size when that is positive |
| InventorySlots.Clear | Test/Assets/Scripts/Inventory/Core/InventorySlot.cs:13-17 | a cleared slot is empty, with no item and quantity 0 |
| InventorySlots.RemainingCapacity | Test/Assets/Scripts/Inventory/Core/InventorySlot.cs:24-32 | without an item the capacity is 0; with one, capacity plus quantity is the item's stack limit (negative when overfull) |
| Inventories.Held | Test/Assets/Scripts/Inventory/Core/InventorySlot.cs:11 | a slot holds units of an id exactly when it is not empty and its item has that id |
| Inventories.Occupied | Test/Assets/Scripts/Inventory/Core/Inventory.cs:221-228 | the occupied copies are all non-empty and no more than the slots |
| Inventories.NameLe | Test/Assets/Scripts/Inventory/Core/Inventory.cs:209-212 | sort-by-name compares display names ordinally and is a total preorder |
| Inventories.QuantityLe | Test/Assets/Scripts/Inventory/Core/Inventory.cs:214-217 | sort-by-quantity puts larger stacks first and is a total preorder |
| Inventories.OrdinalLePreorder | Test/Assets/Scripts/Inventory/Core/Inventory.cs:211 | ordinal string comparison is total and transitive |
| Inventories.Inventory.constructor | Test/Assets/Scripts/Inventory/Core/Inventory.cs:19-31 | a non-positive slot count is raised to 1 and every slot starts empty |
| Inventories.Inventory.GetSlot | Test/Assets/Scripts/Inventory/Core/Inventory.cs:186-193 | a slot is returned exactly for a valid index, and it is the slot at that index |
| Inventories.Inventory.AddItem | Test/Assets/Scripts/Inventory/Core/Inventory.cs:35-83 | the new slots and the returned remainder are those of the add rule: first top up same-id slots, then fill empty ones |
| Inventories.Inventory.RemoveAt | Test/Assets/Scripts/Inventory/Core/Inventory.cs:85-110 | the new slots and the result are those of the removal rule |
| Inventories.Inventory.Swap | Test/Assets/Scripts/Inventory/Core/Inventory.cs:160-175 | the new slots are those of the swap rule |
| Inventories.Inventory.Move | Test/Assets/Scripts/Inventory/Core/Inventory.cs:112-158 | the new slots are those of the move rule |
| Inventories.Inventory.Clear | Test/Assets/Scripts/Inventory/Core/Inventory.cs:177-184 | every slot becomes the empty slot |
| Inventories.Inventory.GetSlotsByCategory | Test/Assets/Scripts/Inventory/Core/Inventory.cs:195-207 | the indices are exactly the occupied slots whose item has that category, in increasing order |
| Inventories.Inventory.SortInternal | Test/Assets/Scripts/Inventory/Core/Inventory.cs:219-247 | the new slots are the occupied stacks, as a multiset, ordered by the comparison with equal stacks in any order, followed by empty slots |
| Inventories.Inventory.CollectOccupied | Test/Assets/Scripts/Inventory/Core/Inventory.cs:221-228 | the copies are exactly the occupied stacks, in slot order |
| Inventories.Inventory.CopyFront | Test/Assets/Scripts/Inventory/Core/Inventory.cs:237-241 | on emptied slots, the stacks land in the leading slots in order and every later slot stays empty |
| Inventories.Inventory.SortByName | Test/Assets/Scripts/Inventory/Core/Inventory.cs:209-212 | the occupied stacks come first in ordinal display-name order, equal names in any order, then empty slots |
| Inventories.Inventory.SortByQuantity | Test/Assets/Scripts/Inventory/Core/Inventory.cs:214-217 | the occupied stacks come first by descending quantity, equal quantities in any order, then empty slots |
| Inventories.StackPassIdle | Test/Assets/Scripts/Inventory/Core/Inventory.cs:45 | once nothing remains, the rest of the stacking loop changes nothing |
| Inventories.FillPassIdle | Test/Assets/Scripts/Inventory/Core/Inventory.cs:66 | once nothing remains, the rest of the filling loop changes nothing |
| InventoryProperties.UnitsUpdate | Test/Assets/Scripts/Inventory/Core/Inventory.cs:35-175 | replacing one slot changes an id's count by what the slot held before and after |
| InventoryProperties.UnitsSwap | Test/Assets/Scripts/Inventory/Core/Inventory.cs:160-175 | swapping leaves every id's count alone |
| InventoryProperties.StackPassFrame | Test/Assets/Scripts/Inventory/Core/Inventory.cs:45-63 | stacking only tops up same-id slots within their limit and never hands back more than it was given |
| InventoryProperties.StackPassFull | Test/Assets/Scripts/Inventory/Core/Inventory.cs:45-63 | if units remain after stacking, every same-id slot is full |
| InventoryProperties.StackPassConserves | Test/Assets/Scripts/Inventory/Core/Inventory.cs:45-63 | each unit placed by stacking is a unit taken from the remainder |
| InventoryProperties.FillPassFrame | Test/Assets/Scripts/Inventory/Core/Inventory.cs:66-80 | filling only writes empty slots, each with between 1 and a full stack of the item |
| InventoryProperties.FillPassFull | Test/Assets/Scripts/Inventory/Core/Inventory.cs:66-80 | if units remain after filling, no slot can take more of the item |
| InventoryProperties.FillPassConserves | Test/Assets/Scripts/Inventory/Core/Inventory.cs:66-80 | each unit placed by filling is a unit taken from the remainder |
| InventoryProperties.AddItemRejects | Test/Assets/Scripts/Inventory/Core/Inventory.cs:37-40 | no item or a non-positive quantity hands the quantity back and changes nothing |
| InventoryProperties.AddItemChanges | Test/Assets/Scripts/Inventory/Core/Inventory.cs:35-83 | adding hands back between 0 and all of the quantity and changes only same-id slots within their limit and empty slots |
| InventoryProperties.AddItemSparesOtherItems | Test/Assets/Scripts/Inventory/Core/Inventory.cs:35-83 | an occupied slot of another item is never touched |
| InventoryProperties.AddItemConserves | Test/Assets/Scripts/Inventory/Core/Inventory.cs:35-83 | exactly the units not handed back are added to the item's count, and no other id's count changes |
| InventoryProperties.AddItemLeavesNoRoom | Test/Assets/Scripts/Inventory/Core/Inventory.cs:35-83 | units are handed back only when no slot is empty and every same-id slot is full |
| InventoryProperties.AddItemStacksIntoExistingSlot | Test/Assets/Tests/Editor/Inventory/InventoryTests.cs:22-32 | three potions then one more, limit 5, leave 4 in slot 0 |
| InventoryProperties.AddItemSplitsIntoMultipleSlots | Test/Assets/Tests/Editor/Inventory/InventoryTests.cs:34-44 | three coins with limit 2 go 2 into slot 0 and 1 into slot 1 |
| InventoryProperties.StackPassIdleWithoutMatch | Test/Assets/Scripts/Inventory/Core/Inventory.cs:45-63 | with no same-id slot the stacking loop changes nothing |
| InventoryProperties.NoFreeSlotTakesNothing | Test/Assets/Scripts/Inventory/Core/Inventory.cs:33-83 | when no slot is empty or below its limit, adding takes nothing: the whole quantity is handed back and no slot changes |
| InventoryProperties.FreeSlotMayNotFitItem | Test/Assets/Scripts/Inventory/Core/Inventory.cs:33-83 | room in a stack of another item counts as a free slot, yet adding a different item takes nothing |
| InventoryProperties.RemoveAtOutcome | Test/Assets/Scripts/Inventory/Core/Inventory.cs:85-110 | removal succeeds exactly on a valid occupied slot with a positive quantity, takes min(quantity, stack) units of that id only, clears a slot brought to 0, and otherwise changes nothing |
| InventoryProperties.SwapInvolution | Test/Assets/Scripts/Inventory/Core/Inventory.cs:160-175 | swapping twice restores the slots |
| InventoryProperties.SwapPermutes | Test/Assets/Scripts/Inventory/Core/Inventory.cs:160-175 | swapping exchanges the two slots and keeps the multiset of slots |
| InventoryProperties.MoveConserves | Test/Assets/Scripts/Inventory/Core/Inventory.cs:112-158 | moving never changes any id's count |
| InventoryProperties.MoveRespectsLimit | Test/Assets/Scripts/Inventory/Core/Inventory.cs:133-144 | moving onto a same-id stack below its limit never pushes it past the limit |
| InventoryProperties.MoveSwapsDifferentItems | Test/Assets/Scripts/Inventory/Core/Inventory.cs:150-153 | moving onto a different item swaps the stacks |
| InventoryProperties.MoveSwapsWhenDifferentItems | Test/Assets/Tests/Editor/Inventory/InventoryTests.cs:46-60 | adding a and b then moving slot 0 to slot 1 leaves b in slot 0 and a in slot 1 |
| InventoryProperties.OccupiedIgnoresEmptyTail | Test/Assets/Scripts/Inventory/Core/Inventory.cs:221-228 | empty slots appended at the end add no occupied stack |
| InventoryProperties.SortCompactsAndPermutes | Test/Assets/Scripts/Inventory/Core/Inventory.cs:219-247 | any result sorting may leave holds the occupied stacks at the front in comparison order, empties the rest, and keeps exactly the same occupied stacks |
| InventoryProperties.PermutedAreOccupied | Test/Assets/Scripts/Inventory/Core/Inventory.cs:230 | any reordering of occupied stacks holds only occupied stacks |
| InventoryProperties.SortKeepsOccupiedCount | Test/Assets/Scripts/Inventory/Core/Inventory.cs:219-247 | sorting never changes how many slots are occupied |
| InventoryProperties.AddItemKeepsCanonical | Test/Assets/Scripts/Inventory/Core/Inventory.cs:35-83 | adding never leaves an item in an empty slot |
| InventoryProperties.RemoveAtKeepsCanonical | Test/Assets/Scripts/Inventory/Core/Inventory.cs:102-105 | removal clears a slot brought to 0, so no item lingers in an empty slot |
| InventoryProperties.SwapKeepsCanonical | Test/Assets/Scripts/Inventory/Core/Inventory.cs:160-175 | swapping never leaves an item in an empty slot |
| InventoryProperties.MoveKeepsCanonical | Test/Assets/Scripts/Inventory/Core/Inventory.cs:112-158 | moving never leaves an item in an empty slot |
| InventoryProperties.SortKeepsCanonical | Test/Assets/Scripts/Inventory/Core/Inventory.cs:219-247 | sorting never leaves an item in an empty slot |
| ItemDatabases.IndexUpTo | Test/Assets/Scripts/Inventory/Data/ItemDatabase.cs:23-44 | every indexed id is non-blank and maps to a definition carrying that id |
| ItemDatabases.Lookup | Test/Assets/Scripts/Inventory/Data/ItemDatabase.cs:56-62 | a lookup finds something exactly for a non-blank id in the index, and then the indexed definition |
| ItemDatabases.IndexFirstWins | Test/Assets/Scripts/Inventory/Data/ItemDatabase.cs:24-44 | the index holds exactly the non-blank ids some entry defines, each mapped to the first entry defining it |
| ItemDatabases.LookupFindsFirst | Test/Assets/Scripts/Inventory/Data/ItemDatabase.cs:37-43 | a lookup of a defined id finds the first definition of it in list order |
| ItemDatabases.LookupMissesUndefined | Test/Assets/Scripts/Inventory/Data/ItemDatabase.cs:56-62 | a blank id, or one no entry defines, finds nothing |
| ItemDatabases.ItemDatabase.constructor | Test/Assets/Scripts/Inventory/Data/ItemDatabase.cs:9-12 | a new database holds its list, an empty index, and is not initialized |
| ItemDatabases.ItemDatabase.Initialize | Test/Assets/Scripts/Inventory/Data/ItemDatabase.cs:16-47 | once initialized the index is kept; otherwise it is built from the list |
| ItemDatabases.ItemDatabase.GetById | Test/Assets/Scripts/Inventory/Data/ItemDatabase.cs:49-63 | the lookup initializes on first use and answers as the index built from the list would |
| ItemDatabases.ItemDatabase.OnValidate | Test/Assets/Scripts/Inventory/Data/ItemDatabase.cs:66-69 | the index is marked stale, so the next lookup rebuilds it from the list |
| InventorySerializers.Records | Test/Assets/Scripts/Inventory/Persistence/InventorySerializer.cs:15-29 | there are no more records than slots |
| InventorySerializers.ToSaveData | Test/Assets/Scripts/Inventory/Persistence/InventorySerializer.cs:7-32 | no inventory gives no records; otherwise the loop writes the record list of the occupied slots |
| InventorySerializers.RecordsDescribeOccupiedSlots | Test/Assets/Scripts/Inventory/Persistence/InventorySerializer.cs:15-29 | one record per occupied slot, each with that slot's index, id and quantity, in strictly increasing index order |
| InventoryManagers.Resolve | Test/Assets/Scripts/Inventory/Core/InventoryManager.cs:75 | without a database nothing resolves; with one, resolution is the database lookup |
| InventoryManagers.ApplyRecord | Test/Assets/Scripts/Inventory/Core/InventoryManager.cs:164-186 | a null record, a blank or unknown id, or an invalid index is skipped; otherwise the slot receives the item and the saved quantity as is |
| InventoryManagers.UseTarget | Test/Assets/Scripts/Inventory/Core/InventoryManager.cs:86-99 | an action is chosen exactly for a valid, occupied slot whose item has one, and it is that item's action |
| InventoryManagers.InventoryManager.constructor | Test/Assets/Scripts/Inventory/Core/InventoryManager.cs:52-57 | the manager holds the database, possibly missing, and the inventory |
| InventoryManagers.InventoryManager.LookUp | Test/Assets/Scripts/Inventory/Core/InventoryManager.cs:75 | the lookup answers as resolution through the database does |
| InventoryManagers.InventoryManager.AddItemById | Test/Assets/Scripts/Inventory/Core/InventoryManager.cs:73-84 | an unknown id hands the whole quantity back and changes nothing; otherwise the inventory adds the resolved item |
| InventoryManagers.InventoryManager.UseItem | Test/Assets/Scripts/Inventory/Core/InventoryManager.cs:86-99 | the action chosen is the one the use rule picks |
| InventoryManagers.InventoryManager.ApplyLoadedInventory | Test/Assets/Scripts/Inventory/Core/InventoryManager.cs:155-187 | without data or an inventory nothing changes; otherwise the slots are cleared and then the records applied in order |
| InventoryManagers.ApplyRecordsOfPrefix | Test/Assets/Scripts/Inventory/Core/InventoryManager.cs:155-187 | applying the records of the first k slots to cleared slots rebuilds those k slots |
| InventoryManagers.SaveThenLoadRestores | Test/Assets/Scripts/Inventory/Core/InventoryManager.cs:155-187 | saving an inventory and applying the save to cleared slots restores it, when every empty slot is cleared and every item resolves to itself |
| InventoryManagers.SecondRecordOverwrites | Test/Assets/Scripts/Inventory/Core/InventoryManager.cs:184-185 | two applicable records for one slot leave what the second alone leaves |
| InventoryManagers.LaterRecordWins | Test/Assets/Scripts/Inventory/Core/InventoryManager.cs:164-186 | of two applicable records for the same slot, the later one decides its contents |
| NetworkRetry.BackoffDelay | Test/Assets/Scripts/Supabase/NetworkRetryHelper.cs:103-109 | the delay is positive and at most 10 seconds: 2^(attempt-1) up to attempt 4, and 10 from attempt 5 on |
| NetworkRetry.Pow2Bounds | Test/Assets/Scripts/Supabase/NetworkRetryHelper.cs:106 | powers of two from exponent 4 are at least 16 and up to exponent 3 at most 8, which places the 10-second cap |
| NetworkRetry.BackoffDoubles | Test/Assets/Scripts/Supabase/NetworkRetryHelper.cs:103-109 | each delay is twice the previous one, capped at 10 seconds |
| NetworkRetry.BackoffMonotone | Test/Assets/Scripts/Supabase/NetworkRetryHelper.cs:103-109 | delays never shrink as attempts grow |
| NetworkRetry.BackoffSchedule | Test/Assets/Scripts/Supabase/NetworkRetryHelper.cs:99-102 | the delays run 1, 2, 4, 8, then 10 seconds |
| NetworkRetry.RequestTimeoutIsRetried | Test/Assets/Scripts/Supabase/NetworkRetryHelper.cs:87-89 | a connection or protocol error whose message mentions "timeout" is retried |
| NetworkRetry.CapitalizedTimeoutIsFinal | Test/Assets/Scripts/Supabase/NetworkRetryHelper.cs:88-92 | the check is case-sensitive: a 4xx error reading "Timeout" is not retried |
| NetworkRetry.Attempted | Test/Assets/Scripts/Supabase/NetworkRetryHelper.cs:33-49 | each attempt gets the timeout truncated to whole seconds; a retried request keeps only its URL and method, losing headers, body and download handler |
| NetworkRetry.ReportedText | Test/Assets/Scripts/Supabase/NetworkRetryHelper.cs:62-63 | a failure reports the downloaded text when there is a download handler with text, and the error otherwise |
| NetworkRetry.ExecuteWithRetry | Test/Assets/Scripts/Supabase/NetworkRetryHelper.cs:24-68 | with a non-positive budget nothing is sent and nothing reported; otherwise 1 to budget attempts are sent, every attempt but the last was retryable, the waits between them follow the backoff, and exactly one completion is reported: retries exceeded, success, or the reported error text |
| SupabaseConfig.WrapInt64 | Test/Assets/Scripts/Supabase/SupabaseSettings.cs:36 | the 64-bit wrap keeps values in range, keeps in-range values, and differs by a multiple of 2^64 |
| SupabaseConfig.MaxUploadSizeBytes | Test/Assets/Scripts/Supabase/SupabaseSettings.cs:36 | the byte limit is the megabyte figure times 1024 * 1024, wrapped to 64 bits when it overflows |
| SupabaseConfig.WrappedScaleCongruent | Test/Assets/Scripts/Supabase/SupabaseSettings.cs:36 | wrapping before or after scaling gives the same value modulo 2^64 |
| SupabaseConfig.GetValidationError | Test/Assets/Scripts/Supabase/SupabaseSettings.cs:49-56 | the message is empty exactly when URL and key are both set; a missing URL is reported before a missing key |
| SupabaseConfig.DefaultsUploadLimit | Test/Assets/Scripts/Supabase/SupabaseSettings.cs:14-30 | the initial limit is 52428800 bytes, and the initial settings are invalid for a missing URL |
| SupabaseConfig.UploadLimitWraps | Test/Assets/Scripts/Supabase/SupabaseSettings.cs:36 | a limit of 2^43 MB wraps to the most negative 64-bit value |
| NetworkSettingsAsset.ValidatedClamps | Test/Assets/Scripts/Networking/NetworkSettings.cs:54-59 | after validation every bound holds; a field within its bound is kept, one below it becomes the lower bound and one above it the upper bound |
| NetworkSettingsAsset.ValidatedFixesExactlyInBounds | Test/Assets/Scripts/Networking/NetworkSettings.cs:54-59 | validation leaves the settings unchanged exactly when they are within bounds |
| NetworkSettingsAsset.ValidatedIdempotent | Test/Assets/Scripts/Networking/NetworkSettings.cs:54-59 | validating twice is validating once |
| NetworkSettingsAsset.DefaultsInBounds | Test/Assets/Scripts/Networking/NetworkSettings.cs:10-41 | the initial values are within bounds, so validation keeps them |
| NetworkSettingsAsset.NetworkSettings.constructor | Test/Assets/Scripts/Networking/NetworkSettings.cs:10-41 | a new asset holds the initial values |
| NetworkSettingsAsset.NetworkSettings.OnValidate | Test/Assets/Scripts/Networking/NetworkSettings.cs:54-59 | the new fields are the validated old fields and every bound holds |
| NetworkModes.Switch | Test/Assets/Scripts/Networking/NetworkModeManager.cs:79-107 | a switch is granted exactly when the mode is unchanged or no gameplay is active; a granted switch ends in the requested mode, a refused one keeps the current mode, and neither a refusal nor a same-mode request makes any Photon call |
| NetworkModes.SwitchCalls | Test/Assets/Scripts/Networking/NetworkModeManager.cs:92-127 | a granted change ends by setting the offline flag and raising the event; it leaves the room exactly when going from online to offline while in a room, and disconnects exactly when going from online to offline while connected |
| NetworkModes.GameplaySceneIffContainsGame | Test/Assets/Scripts/Networking/NetworkModeManager.cs:62-66 | a scene is gameplay exactly when its name contains "Game"; the "Gameplay" test adds nothing |
| NetworkModes.SwitchSettles | Test/Assets/Scripts/Networking/NetworkModeManager.cs:79-84 | once a switch is granted, asking again for the same mode is granted and does nothing |
| NetworkModes.SwitchRoundTrip | Test/Assets/Scripts/Networking/NetworkModeManager.cs:79-107 | outside gameplay, switching away and back is granted both ways and returns to the starting mode |
| NetworkModes.NetworkModeManager.constructor | Test/Assets/Scripts/Networking/NetworkModeManager.cs:28-50 | with settings, the Photon rates are set from them and the default mode is applied; without settings no call is made; gameplay starts inactive |
| NetworkModes.NetworkModeManager.OnSceneLoaded | Test/Assets/Scripts/Networking/NetworkModeManager.cs:62-66 | the gameplay flag becomes whether the scene name contains "Game"; nothing else changes |
| NetworkModes.NetworkModeManager.SetInGameplay | Test/Assets/Scripts/Networking/NetworkModeManager.cs:71-74 | only the gameplay flag changes |
| NetworkModes.NetworkModeManager.SwitchMode | Test/Assets/Scripts/Networking/NetworkModeManager.cs:79-107 | the result, the new mode and the Photon calls made are those of the switch rule |
| NetworkModes.NetworkModeManager.ApplyMode | Test/Assets/Scripts/Networking/NetworkModeManager.cs:109-127 | the mode is set and the offline flag and the event are appended to the Photon calls |
| PlayerSpawning.TruncatedRemainder | Test/Assets/Scripts/Networking/PlayerSpawnManager.cs:141 | C#'s `%`: for a non-negative dividend the usual remainder; for a negative one a value in (-n, 0] that differs from the dividend by a multiple of n |
| PlayerSpawning.FirstFree | Test/Assets/Scripts/Networking/PlayerSpawnManager.cs:128-136 | -1 exactly when every index in range is taken; otherwise the lowest index not taken |
| PlayerSpawning.SpawnIndex | Test/Assets/Scripts/Networking/PlayerSpawnManager.cs:127-144 | the chosen index is the lowest free spawn point when one is free; when all are taken it is (actor number - 1) % n with C#'s sign rule; it always lies in (-n, n) |
| PlayerSpawning.SpawnIndexInRange | Test/Assets/Scripts/Networking/PlayerSpawnManager.cs:138-142 | for Photon's actor numbers, which start at 1, the chosen index is a valid spawn point |
| PlayerSpawning.NonPositiveActorSelectsNegativeIndex | Test/Assets/Scripts/Networking/PlayerSpawnManager.cs:141 | with every point taken, an actor number of 0 or less that is not 1 more than a multiple of n selects a negative index, which the array read at line 146 rejects |
| PlayerSpawning.SpawnsTakePointsInOrder | Test/Assets/Scripts/Networking/PlayerSpawnManager.cs:127-144 | successive spawns into an empty record, with no clear in between, take spawn points 0, 1, 2, ... in order whatever the actor numbers |
| PlayerSpawning.FreshSpawnTakesFirstPoint | Test/Assets/Scripts/Networking/PlayerSpawnManager.cs:127-136 | with no spawn point taken, the spawn goes to point 0 |
| PlayerSpawning.PlayerSpawnManager.constructor | Test/Assets/Scripts/Networking/PlayerSpawnManager.cs:18-21 | no local player, no spawn point taken, no Photon call |
| PlayerSpawning.PlayerSpawnManager.PrefabName | Test/Assets/Scripts/Networking/PlayerSpawnManager.cs:75 | the settings' prefab name, or "NetworkPlayer" without settings |
| PlayerSpawning.PlayerSpawnManager.Start | Test/Assets/Scripts/Networking/PlayerSpawnManager.cs:36-42 | without settings of its own the manager takes the mode manager's, if one exists; nothing else changes |
| PlayerSpawning.PlayerSpawnManager.GetSpawnTransform | Test/Assets/Scripts/Networking/PlayerSpawnManager.cs:115-148 | no spawn points: the origin, nothing recorded; otherwise the chosen index is recorded as taken and its pose returned, a negative index giving a failed read |
| PlayerSpawning.PlayerSpawnManager.SpawnLocalPlayer | Test/Assets/Scripts/Networking/PlayerSpawnManager.cs:67-87 | an existing local player is returned unchanged with no call; otherwise one instantiation of the prefab at the chosen pose is issued and becomes the local player, unless reading the spawn point fails |
| PlayerSpawning.PlayerSpawnManager.CleanupLocalPlayer | Test/Assets/Scripts/Networking/PlayerSpawnManager.cs:92-101 | with a local player: it is destroyed through Photon, cleared, and every spawn point freed; without one nothing changes |
| PlayerSpawning.PlayerSpawnManager.OnPlayerLeftRoom | Test/Assets/Scripts/Networking/PlayerSpawnManager.cs:57-62 | every spawn point is freed; the local player and the calls are unchanged |
| PlayerSpawning.PlayerSpawnManager.OnJoinedRoom | Test/Assets/Scripts/Networking/PlayerSpawnManager.cs:44-50 | without settings or without auto-spawn nothing changes; with auto-spawn an existing local player is kept |
| PlayerSpawning.PlayerSpawnManager.OnLeftRoom | Test/Assets/Scripts/Networking/PlayerSpawnManager.cs:52-55 | afterwards there is no local player, and the spawn points are freed if there was one |
| PlayerSpawning.PlayerSpawnManager.RespawnLocalPlayer | Test/Assets/Scripts/Networking/PlayerSpawnManager.cs:106-110 | with a local player and spawn points: one destroy then one instantiation at spawn point 0, which is the only one taken |
| Text.ContainsTransitive | Test/Assets/Scripts/Networking/NetworkModeManager.cs:65 | a string containing "Gameplay" contains "Game": substring containment is transitive, which makes the second scene-name test redundant |
| Text.Repeat | admin/src/lib/gemini/tool-handlers.ts:9 | `"*".repeat(n)`: exactly n characters, each the repeated one |
| Text.ReplaceAll | admin/src/lib/auth/session.ts:33-34 | one-character `replaceAll`: same length, each occurrence of the old character replaced and every other character kept in place |
| Text.RemoveAll | admin/src/lib/auth/session.ts:35 | `replaceAll("=", "")`: the result holds no occurrence of the character and no character the input lacks |
| Text.RemoveAllAppend | admin/src/lib/auth/session.ts:35 | removing a character from a concatenation is removing it from each part |
| Text.RemoveAllAbsent | admin/src/lib/auth/session.ts:35 | removing a character the string does not hold leaves the string unchanged |
| Text.Split | admin/src/lib/auth/session.ts:87 | one-character `split`: at least one field, no field holds the separator, and joining the fields with the separator gives the input back |
| Text.SplitJoin | admin/src/lib/auth/session.ts:80-87 | splitting a join of separator-free parts gives those parts back |
| Text.JoinLeadingParts | admin/src/lib/auth/session.ts:80 | a join of two or more parts starts with the first part, the separator and the second part |
| Text.SplitLeadingFields | admin/src/lib/auth/session.ts:80-90 | a string made of two separator-free fields, ending there or followed by the separator, splits into those two fields first |
| Base64Url.CharOf | admin/src/lib/auth/session.ts:32 | each 6-bit value maps to a character of the base64 alphabet |
| Base64Url.ValueOf | admin/src/lib/auth/session.ts:51 | each character of the alphabet stands for a 6-bit value whose character is that same character |
| Base64Url.CharOfValueOf | admin/src/lib/auth/session.ts:32 | the alphabet is one-to-one: reading back a value's character gives the value |
| Base64Url.EncodeGroup | admin/src/lib/auth/session.ts:32 | three bytes become four characters of the alphabet |
| Base64Url.EncodePartial | admin/src/lib/auth/session.ts:32 | a final group of one or two bytes becomes two or three characters of the alphabet |
| Base64Url.DecodableLengthMod | admin/src/lib/auth/session.ts:48 | a character count splits into full groups and a final group of two or three exactly when it does not leave remainder 1 modulo 4 |
| Base64Url.EncodedLengthFacts | admin/src/lib/auth/session.ts:29-44 | n bytes encode to ceil(4n/3) characters before padding, a decodable length whose remainder modulo 4 fixes the padding |
| Base64Url.EncodeGroups | admin/src/lib/auth/session.ts:32 | the unpadded encoding has exactly ceil(4n/3) characters |
| Base64Url.EncodeGroupsInAlphabet | admin/src/lib/auth/session.ts:32 | the unpadded encoding uses only characters of the alphabet |
| Base64Url.Base64Encode | admin/src/lib/auth/session.ts:32 | the padded encoding, as `Buffer#toString("base64")` and `btoa` produce it, has a length that is a multiple of four |
| Base64Url.DecodeGroup | admin/src/lib/auth/session.ts:55 | four characters of the alphabet decode to three bytes |
| Base64Url.DecodePartial | admin/src/lib/auth/session.ts:55 | a final group of two or three characters decodes to one or two bytes |
| Base64Url.GroupRoundTrip | admin/src/lib/auth/session.ts:29-61 | a full group of three bytes decodes back to those bytes |
| Base64Url.PartialRoundTrip | admin/src/lib/auth/session.ts:29-61 | a final group of one or two bytes decodes back to those bytes |
| Base64Url.DecodeEncodeGroups | admin/src/lib/auth/session.ts:29-61 | decoding the unpadded characters of any bytes gives the bytes back |
| Base64Url.RemoveWhitespace | admin/src/lib/auth/session.ts:55 | the forgiving decoder's first step leaves no ASCII white space and never lengthens the input |
| Base64Url.RemoveWhitespaceAbsent | admin/src/lib/auth/session.ts:55 | a string without white space is kept as it is |
| Base64Url.DecodeCore | admin/src/lib/auth/session.ts:55 | after padding is stripped, `atob` succeeds exactly when the length does not leave remainder 1 modulo 4 and every character is in the alphabet |
| Base64Url.StripPadding | admin/src/lib/auth/session.ts:55 | `atob` drops at most two trailing characters, only '=', and only from a length that is a multiple of four |
| Base64Url.PadBase64 | admin/src/lib/auth/session.ts:48 | the padding appended makes the length a multiple of four, adding three, two, one or no '=' for remainders 1, 2, 3 and 0 |
| Base64Url.Base64UrlEncode | admin/src/lib/auth/session.ts:29-44 | the URL-safe token is the unpadded encoding with '+' turned into '-' and '/' into '_', character by character |
| Base64Url.UrlEncodingAlphabet | admin/src/lib/auth/session.ts:33-35 | the token uses only the URL-safe alphabet of section 5 of RFC 4648: no '+', no '/' and no '=' |
| Base64Url.AtobOfPadded | admin/src/lib/auth/session.ts:47-55 | padding an unpadded encoding and decoding it as `atob` does gives the decoded groups |
| Base64Url.StripPaddingOfPadded | admin/src/lib/auth/session.ts:48-55 | the decoder's padding is exactly what `atob` strips again |
| Base64Url.DecodeEncode | admin/src/lib/auth/session.ts:29-61 | decoding an encoding gives the original bytes back |
| Base64Url.EncodeNonEmpty | admin/src/lib/auth/session.ts:29-44 | bytes that are not empty encode to a token that is not empty, so neither part of a session token is ever empty |
| Base64Url.OneCharOverIsRejected | admin/src/lib/auth/session.ts:46-61 | a token part of length 4k + 1 is rejected: the three '=' appended leave one that `atob` cannot drop |
| Base64Url.BinaryString | admin/src/lib/auth/session.ts:38-41 | the fallback binary string has one character per byte, each with the byte's code |
| Base64Url.BytesOfBinary | admin/src/lib/auth/session.ts:55-60 | the fallback copies each code unit of the binary string into a new byte array, modulo 256 as a `Uint8Array` stores it |
| Sessions.TokenParts | admin/src/lib/auth/session.ts:87-90 | a token is accepted only with two non-empty '.'-free leading fields, which the token starts with, joined by a '.'; a token without '.' is refused |
| Sessions.SealedToken | admin/src/lib/auth/session.ts:73-80 | a token sealed from non-empty fields splits back into the two base64url fields it was made of |
| Sessions.DecryptSession | admin/src/lib/auth/session.ts:83-104 | a missing or empty secret, or a malformed token, gives no session |
| Sessions.GetSessionFromCookieValue | admin/src/lib/auth/session.ts:106-121 | no value or an empty one gives no session; a session is returned exactly when the value decrypts to one that has not expired, and it is the decrypted session |
| Sessions.CookieMaxAge | admin/src/lib/auth/session.ts:138 | the cookie lifetime is never negative, is positive only before the expiry, and is 0 once the clock has reached it |
| Sessions.EncodingHasNoDot | admin/src/lib/auth/session.ts:29-44 | an encoded field never holds the '.' separator |
| Sessions.TokenPartsOfFields | admin/src/lib/auth/session.ts:80-90 | a token made of two fields gives those two fields back, whatever follows a further '.' |
| Sessions.DecryptSealed | admin/src/lib/auth/session.ts:73-104 | a token as the encryption writes it reads back to what the decryption of its initialisation vector and ciphertext gives |
| Sessions.MalformedTokenRefused | admin/src/lib/auth/session.ts:87-90 | a token without '.' or with an empty first field is refused |
| Sessions.ZeroNeverExpires | admin/src/lib/auth/session.ts:116 | an expiry of 0 is treated as absent, so such a session is returned at any time |
| Sessions.RefusalPersists | admin/src/lib/auth/session.ts:106-121 | a refused cookie value stays refused as the clock moves on |
| Sessions.CookieMaxAgeShrinks | admin/src/lib/auth/session.ts:138 | the cookie lifetime never grows as the clock moves on |
| Sessions.LiveCookieHoldsLiveSession | admin/src/lib/auth/session.ts:116-138 | while the cookie still has a lifetime, the session it carries is not expired |
| AdminGate.Gate | admin/src/middleware.ts:7-40 | only a protected request (under "/api/", not a public path, not OPTIONS) is rejected; it gets 401 exactly when the cookie holds no live session and 403 exactly when the live session's user is not an administrator |
| AdminGate.PassesIffUnprotectedOrAdmin | admin/src/middleware.ts:7-40 | a request passes exactly when it is not protected or carries a live administrator's session |
| AdminGate.OutsideApiPasses | admin/src/middleware.ts:10-12 | any path not starting with "/api/" passes whatever the cookie |
| AdminGate.LoginReachableWithoutSession | admin/src/middleware.ts:5-16 | the login route passes without a cookie |
| AdminGate.PublicPathsMatchExactly | admin/src/middleware.ts:5-29 | public paths match exactly: a path below the health route without a cookie gets 401 |
| AdminGate.SealedAdminSessionPasses | admin/src/middleware.ts:22-39 | a token sealed for a live administrator's session lets every request through |
| Masking.MaskLocal | admin/src/lib/gemini/tool-handlers.ts:8-9 | the masked local part keeps only its first character, followed by max(1, length - 2) stars |
| Masking.MaskEmail | admin/src/lib/gemini/tool-handlers.ts:4-13 | text with no second '@'-field, or an empty one, is returned unchanged; otherwise the result splits into exactly the masked local part and the domain |
| Masking.Keys | admin/src/lib/gemini/tool-handlers.ts:24 | the keys of an object's entries, in order |
| Masking.MaskSensitiveData | admin/src/lib/gemini/tool-handlers.ts:16-42 | values that are not arrays or objects come back unchanged; an array keeps its length with each element masked; an object keeps its keys in order with each entry masked |
| Masking.MaskItems | admin/src/lib/gemini/tool-handlers.ts:19-21 | each element of an array is masked on its own, at the same position |
| Masking.MaskEntries | admin/src/lib/gemini/tool-handlers.ts:23-40 | each entry keeps its key and has its value masked |
| Masking.MaskEntry | admin/src/lib/gemini/tool-handlers.ts:25-39 | a string with an '@' is masked as an address; any other value under "email" or "user_email" is copied; a nested array or object elsewhere is masked; everything else is copied |
| Masking.NoAtUnchanged | admin/src/lib/gemini/tool-handlers.ts:5-6 | text without an '@' is not changed |
| Masking.MaskOfAddress | admin/src/lib/gemini/tool-handlers.ts:4-13 | an address is masked to its first character, the stars, '@' and the domain; a further '@' and what follows it is dropped |
| Masking.ExtraFieldsDropped | admin/src/lib/gemini/tool-handlers.ts:5 | "a@b@c" becomes "a*@b" |
| Masking.EmptyDomainUnchanged | admin/src/lib/gemini/tool-handlers.ts:6 | an address with an empty domain is not masked |
| Masking.MaskRevealsFirstCharOnly | admin/src/lib/gemini/tool-handlers.ts:7-11 | a masked address shows no more of its local part than the first character |
| Masking.NoAtDataUnchanged | admin/src/lib/gemini/tool-handlers.ts:16-42 | data with no '@' anywhere comes back unchanged |
| Masking.ArrayStringsNotMasked | admin/src/lib/gemini/tool-handlers.ts:17-21 | a string at the top level or directly inside an array is not masked |
| Masking.NestedUnderEmailKeyNotMasked | admin/src/lib/gemini/tool-handlers.ts:25-34 | an object under the "email" key is copied without masking the addresses inside it |
| Schemas.ParsePage | admin/src/lib/validation/schemas.ts:3-12 | an absent page becomes 1; a given one is accepted exactly when it is an integer of at least 1, and keeps its value |
| Schemas.ParseLimit | admin/src/lib/validation/schemas.ts:4-13 | an absent limit becomes 20; a given one is accepted exactly when it is an integer in [1, 100], and keeps its value |
| Schemas.ParseListItems | admin/src/lib/validation/schemas.ts:11-19 | the item list query is accepted exactly when its page and limit are, every filter given is non-empty, and sort and order come from their fixed sets; then the page is at least 1, the limit in [1, 100], and the defaults fill absent values |
| Schemas.ParseListPlayers | admin/src/lib/validation/schemas.ts:77-81 | the player list query is accepted exactly when its page and limit are and a given search is non-empty, with the same bounds and defaults |
| Text.NatToString | admin/src/lib/validation/schemas.ts:108 | a number, here an array index, is written as one or more decimal digits, a single one exactly below 10 |
| Schemas.SegmentTexts | admin/src/lib/validation/schemas.ts:108 | each step of an issue's path becomes its text, in order |
| Schemas.FormatZodError | admin/src/lib/validation/schemas.ts:106-111 | one error per issue, in order, each with the issue's message and its path joined by '.' |
| Schemas.StackingIssues | admin/src/lib/validation/schemas.ts:31-75 | at most one issue: "maxStack is required" exactly when the item is stackable and maxStack is absent or 0, "maxStack must be 1" exactly when it is not stackable and maxStack is given, non-zero and not 1; none when stackability is unknown |
| Schemas.CreateStackingRule | admin/src/lib/validation/schemas.ts:21-47 | with valid fields, a new item is accepted exactly when a stackable one gives maxStack and any other gives none or 1 |
| Schemas.UpdateRulesNeedExplicitStackable | admin/src/lib/validation/schemas.ts:55-75 | an update that does not give stackable passes the stacking rules whatever maxStack is |
| Schemas.UpdateStackingRule | admin/src/lib/validation/schemas.ts:49-75 | an update that gives stackable is held to the same rule as a new item |
| Schemas.StackingIssuesOnMaxStack | admin/src/lib/validation/schemas.ts:31-111 | a stacking issue is reported on the field "maxStack" with its message |
| Schemas.FieldSplitsIntoPath | admin/src/lib/validation/schemas.ts:108 | when no key holds a '.', the reported field splits back into the path's steps |
| AdminRoutes.PaginationRange | admin/src/app/api/items/route.ts:8-12 | the row range of a page holds exactly `limit` rows |
| AdminRoutes.TotalPages | admin/src/app/api/items/route.ts:51-52 | no pages exactly when the count is absent or 0; otherwise the fewest pages of `limit` rows that hold every row |
| AdminRoutes.ListMetaOf | admin/src/app/api/items/route.ts:51-54 | the reported page and limit are the requested ones and the total is the count or 0; there are no pages exactly when there are no rows, every row lies on a page from 1 to the page count, and the last page starts within the rows |
| AdminRoutes.ItemsOrdering | admin/src/app/api/items/route.ts:43 | items are ordered by the requested column, by default the creation time, ascending exactly when "asc" is asked for |
| AdminRoutes.StoredMaxStack | admin/src/app/api/items/route.ts:71 | a non-stackable item stores 1; a stackable one stores the requested stack size, or 1 when none is given |
| AdminRoutes.PagesAreContiguous | admin/src/app/api/items/route.ts:8-12 | page 1 starts at row 0 and each page starts right after the previous one ends |
| AdminRoutes.RowOnExactlyOnePage | admin/src/app/api/players/route.ts:8-12 | with a positive limit, every row lies on exactly one page, the one its index over the limit plus one names |
| AdminRoutes.PageCountCoversRows | admin/src/app/api/players/route.ts:8-39 | every counted row lies on a page from 1 to the page count, and the last page is not empty |
| AdminRoutes.DefaultOrderingsAgree | admin/src/app/api/players/route.ts:32 | the default item ordering is the players' fixed ordering, newest first |
| AdminRoutes.ParsedQueryOrdersByKnownColumn | admin/src/app/api/items/route.ts:16-43 | every ordering a valid item query can ask for is by creation time or by name |
| AdminRoutes.CreatedMaxStackAsRequested | admin/src/app/api/items/route.ts:65-71 | for a valid creation request the stored stack size is the one requested, or 1 when none was, and lies in [1, 999] |

## Left out

- **Addressables.** Asset loading, instance release and catalog lookup are foreign calls. The catalog is a set of ids, a load's completion is the `poll` function, and whether starting a load throws is an oracle sequence; asset handles are opaque serial numbers.
- **Chunk memory estimates.** They are inputs. The source only ever writes 0 into them, and the `ZeroEstimates*` lemmas show that the purge then does nothing.
- **Floating point.** World positions, chunk sizes, priorities and budgets are reals. Float rounding in `Mathf.FloorToInt`, `Vector3.Distance` and the `float.MaxValue` sentinel is not modelled. The sentinel is written out as a real literal.
- **Integer width.** C# `int` and `long` are unbounded integers here, except in `SupabaseConfig.MaxUploadSizeBytes`, where the `long` wrap is written out with `WrapInt64`. Elsewhere a wrap takes a value outside the range the game produces, such as an unvalidated save record or a cell two billion chunks away, and the model does not wrap or throw where the source would. The members it affects are listed below.
- InventorySlots.RemainingCapacity: `MaxStackSize - Quantity` does not wrap. A quantity of `int.MinValue` from an unvalidated save record gives a large positive capacity here. In the source it wraps to a negative one, so `AddItem` skips that slot when stacking and the fill pass overwrites it.
- Inventories.Inventory.AddItem: inherits `RemainingCapacity`'s unbounded arithmetic; the sums of quantities do not wrap either.
- ChunkCoords.Distance: `X - other.X` does not wrap, and `Mathf.Abs(int.MinValue)`, which throws `OverflowException`, is not modelled.
- ChunkCoords.WorldMax: `(X + 1)` does not wrap at `int.MaxValue`.
- ChunkGrids.GetSurroundingChunks: the loop bounds `center ± radius` do not wrap; neither do those of the protected square in `ChunkLoaders.ChunkLoader.PurgeExcessMemory`.
- ChunkLoaders.ChunkLoader.CalculateTotalMemory: the `long` sum of estimates does not wrap.
- PlayerSpawning.SpawnIndex: `ActorNumber - 1` does not wrap at `int.MinValue`.
- **Streamer priorities.** The Euclidean distance used as a load priority is the parameter function `distance`.
- **Time.** `DateTime.UtcNow.Ticks` and `Date.now()` are parameters.
- **Rendering and UI.** `LODController.ApplyLOD` (renderer toggling), the fade-in effect, the debug overlay, and the inventory UI and editor tools are not modelled. The world streamer records a level change but not the renderer calls it makes.
- **MonoBehaviour plumbing.** The singleton `Instance` fields and the Awake/OnEnable/OnDisable hooks are not modelled. Neither is the camera lookup in `WorldStreamer.Start`, nor the getters that only expose fields. The streamer is modelled from the point its start-up has run.
- **Inventory repositories.** `InventoryManager`'s asynchronous initialisation, save, delete and autosave handlers are repository I/O and are not modelled. Its `SortByName`/`SortByQuantity` only delegate to the inventory, whose sorting is modelled.
- **Item identity.** Item definitions are compared as values, not by reference.
- **Inventory events.** `OnItemAdded`, `OnItemRemoved`, `OnItemMoved` and `OnSlotUpdated` are not modelled: their subscribers (the autosave and the UI) are outside the model, and raising an event changes no inventory state. The methods' contracts give the new slots the events would report.
- **Web requests.** `SendWebRequest`, `WaitForSeconds` and the coroutine scheduling of `ExecuteWithRetry` are not modelled. A send's response is an input per attempt. The behaviour of a `UnityWebRequest` after `Dispose` is not modelled beyond losing headers, body and download handler on a retry.
- **Photon.** Photon's room and connection state are inputs. Its calls are a log of effects, and the send and serialization rates set in `Awake` appear only as log entries.
- **Network modes.** The `NetworkMode` enum's declaration is not part of this model. It is taken to have exactly the two members Offline and Online.
- **Spawn points.** `FindObjectsByType` is the `spawnPoints` parameter, in the engine's order. Whether `PhotonNetwork.Instantiate` returns an object is the `instantiates` parameter. An out-of-range spawn-point read, which throws in the source, is the `failed` result.
- PlayerSpawning.PlayerSpawnManager.OnJoinedRoom: with auto-spawn and no local player, the contract states only that the settings are kept. The spawn itself is `SpawnLocalPlayer`'s contract.
- PlayerSpawning.PlayerSpawnManager.OnLeftRoom: without a local player, the contract states only that there is none afterwards. It does not state that the spawn points and the call log are unchanged, which `CleanupLocalPlayer`'s contract gives.
- PlayerSpawning.PlayerSpawnManager.RespawnLocalPlayer: the contract covers only the case of an existing local player and at least one spawn point. The other cases are those of `CleanupLocalPlayer` followed by `SpawnLocalPlayer`.
- **Base64 decoding.** Node's `Buffer` branch of `base64UrlDecode` decodes leniently, skipping characters outside the alphabet. It is not modelled; decoding follows the `atob` branch, the forgiving-base64 decoder of the HTML standard. Encoding is the same in both branches.
- **Characters.** Strings are sequences of Dafny characters. UTF-16 code units, `TextEncoder`/`TextDecoder` and Unicode case rules are not modelled.
- **Session cryptography.** AES-GCM, the SHA-256 key derivation, the random initialisation vector, and the UTF-8 and JSON decoding of the payload are the `Opener` function.
- **Session secret and expiry.**
  - A missing `SESSION_SECRET`, which throws, is `None`.
  - `expiresAt` is an integer: a NaN or fractional expiry is not modelled. The float precision of `Math.floor(Date.now() / 1000)` is not modelled either.
- **Cookies.** Cookie access through `next/headers` and the cookie attributes other than `maxAge` are not modelled.
- **zod.** Type coercion and zod's built-in error messages are not modelled: inputs already have their declared JSON types. The e-mail and URL format checks are parameters.
- **Masking JSON objects.** An object is a sequence of distinct keys in `Object.entries` order. The special `__proto__` key is not modelled.
- **Admin routes.** The database queries, the JSON body parsing and the response helpers of the admin routes are I/O and are not modelled. So are the other admin routes and pages.
