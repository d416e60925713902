/**
 * Properties of the chunk loader's operations, stated on the functions that
 * specify them: the queue is not deduplicated, a failing chunk is retried a
 * bounded number of times, unloading leaves loads in flight, and the purge
 * spares the protected square.
 */
module ChunkLoaderProperties {
  import opened Wrappers
  import opened ChunkCoords
  import opened ChunkGrids
  import opened LoadQueues
  import opened ChunkDatas
  import opened ChunkLoaders

  // ---------------------------------------------------------------------
  // Queueing
  // ---------------------------------------------------------------------

  /** A load is queued exactly when the coordinate is neither cached, loading nor pending. */
  lemma EnqueueQueuesIffAbsent(v: LoaderView, coord: ChunkCoord, priority: real)
    ensures var w := EnqueueLoadSpec(v, coord, priority);
            && (w.queued == v.queued + multiset{QueueItem(coord, priority)}
                <==> coord !in v.records && coord !in v.loading && coord !in v.pending)
            && w.(queued := v.queued) == v
  {
    var item := QueueItem(coord, priority);
    if coord in v.records || coord in v.loading || coord in v.pending {
      assert (v.queued + multiset{item})[item] == v.queued[item] + 1;
    }
  }

  /** The queue itself is not consulted: enqueueing an absent coordinate twice queues it twice. */
  lemma EnqueueTwiceQueuesTwice(v: LoaderView, coord: ChunkCoord, priority: real)
    requires coord !in v.records && coord !in v.loading && coord !in v.pending
    ensures var w := EnqueueLoadSpec(EnqueueLoadSpec(v, coord, priority), coord, priority);
            w.queued[QueueItem(coord, priority)] == v.queued[QueueItem(coord, priority)] + 2
  {
  }

  /**
   * Starting a coordinate that already has a pending load replaces its handle
   * with a new one; the earlier handle is no longer tracked.
   */
  lemma SecondStartReplacesHandle(v: LoaderView, coord: ChunkCoord, catalog: set<string>, now: int, maxRetries: int)
    requires coord in v.pending && v.pending[coord] < v.nextHandle
    requires ToChunkId(coord) !in v.missing && ToChunkId(coord) in catalog
    ensures var r := StartLoadSpec(v, coord, catalog, false, now, maxRetries);
            && r.0.pending[coord] == v.nextHandle != v.pending[coord]
            && r.0.pending.Keys == v.pending.Keys
            && r.1 == Ok
  {
  }

  /** An id known to be missing, or one the catalog cannot locate, starts nothing. */
  lemma StartOfMissingIdDrops(v: LoaderView, coord: ChunkCoord, catalog: set<string>, throws: bool, now: int, maxRetries: int)
    requires ToChunkId(coord) in v.missing || ToChunkId(coord) !in catalog
    ensures var r := StartLoadSpec(v, coord, catalog, throws, now, maxRetries);
            && r == (v.(missing := v.missing + {ToChunkId(coord)}), Ok)
  {
    assert ToChunkId(coord) in v.missing ==> v.missing + {ToChunkId(coord)} == v.missing;
  }

  // ---------------------------------------------------------------------
  // Bounded retries
  // ---------------------------------------------------------------------

  /** The state after `k` consecutive failures of `coord`. */
  function Failures(v: LoaderView, coord: ChunkCoord, maxRetries: int, k: nat): LoaderView
  {
    if k == 0 then v else HandleLoadFailureSpec(Failures(v, coord, maxRetries, k - 1), coord, maxRetries).0
  }

  /**
   * Below the limit each failure counts one more attempt and queues one more
   * retry at the largest priority, leaving the record alone.
   */
  lemma {:induction false} FailuresBelowLimit(v: LoaderView, coord: ChunkCoord, maxRetries: int, k: nat)
    requires coord !in v.retry && 0 < k < maxRetries
    ensures var w := Failures(v, coord, maxRetries, k);
            && w.retry == v.retry[coord := k]
            && w.records == v.records
            && w.queued == v.queued[QueueItem(coord, FloatMaxValue) := v.queued[QueueItem(coord, FloatMaxValue)] + k]
  {
    if k > 1 {
      FailuresBelowLimit(v, coord, maxRetries, k - 1);
    }
  }

  /**
   * A chunk that fails from a clean retry count becomes Failed, and its
   * counter is dropped, on failure number max(1, maxRetries): a limit of 0
   * behaves like 1 because the counter is raised before it is compared.
   */
  lemma FailsPermanentlyAtLimit(v: LoaderView, coord: ChunkCoord, maxRetries: int)
    requires coord !in v.retry && coord in v.records
    ensures var n := Max(1, maxRetries);
            var w := Failures(v, coord, maxRetries, n);
            && w.records == v.records[coord := v.records[coord].(state := Failed)]
            && coord !in w.retry
            && HandleLoadFailureSpec(Failures(v, coord, maxRetries, n - 1), coord, maxRetries).1 == Ok
  {
    var n := Max(1, maxRetries);
    if n > 1 {
      FailuresBelowLimit(v, coord, maxRetries, n - 1);
    }
  }

  /** Success leaves the retry counter as it was: a chunk that later fails again resumes counting. */
  lemma SuccessKeepsRetryCount(v: LoaderView, coord: ChunkCoord, poll: Handle -> HandleStatus, now: int, maxRetries: int)
    requires coord in v.pending && poll(v.pending[coord]).Succeeded? && coord in v.records
    ensures var r := CompletionSpec(v, coord, poll, now, maxRetries);
            && r.0.retry == v.retry
            && r.0.records[coord] == v.records[coord].(root := Some(poll(v.pending[coord]).asset), state := Loaded, lastAccessTicks := now)
            && r.1 == Ok
  {
  }

  // ---------------------------------------------------------------------
  // Loads in flight without a record
  // ---------------------------------------------------------------------

  /**
   * Unloading keeps the pending handle and the loading entry of the
   * coordinate; its retry counter is dropped only together with a record.
   */
  lemma UnloadKeepsLoadInFlight(v: LoaderView, coord: ChunkCoord)
    ensures var w := UnloadSpec(v, coord);
            && w.pending == v.pending && w.loading == v.loading && w.queued == v.queued
            && coord !in w.records
            && (coord in w.retry <==> coord !in v.records && coord in v.retry)
  {
  }

  /**
   * A chunk unloaded while its load is in flight makes the successful
   * completion of that load index the absent record: the frame ends with
   * KeyNotFound, after the handle has been retired.
   */
  lemma CompletionAfterUnloadThrows(v: LoaderView, coord: ChunkCoord, poll: Handle -> HandleStatus, now: int, maxRetries: int)
    requires coord in v.pending && poll(v.pending[coord]).Succeeded?
    ensures var r := CompletionSpec(UnloadSpec(v, coord), coord, poll, now, maxRetries);
            r.1 == KeyNotFound(coord) && coord !in r.0.pending
  {
  }

  /**
   * A start that throws before the chunk has a record, once its retries are
   * used up, indexes the absent record and ends with KeyNotFound.
   */
  lemma FailedStartWithoutRecordThrows(v: LoaderView, coord: ChunkCoord, catalog: set<string>, now: int, maxRetries: int)
    requires coord !in v.records && ToChunkId(coord) !in v.missing && ToChunkId(coord) in catalog
    requires (if coord in v.retry then v.retry[coord] else 0) + 1 >= maxRetries
    ensures StartLoadSpec(v, coord, catalog, true, now, maxRetries).1 == KeyNotFound(coord)
  {
  }

  // ---------------------------------------------------------------------
  // Purge
  // ---------------------------------------------------------------------

  /** Records inside the protected square survive a purge unchanged. */
  lemma PurgeSparesProtected(v: LoaderView, order: seq<AccessEntry>, total: int, budget: int, protect: set<ChunkCoord>)
    ensures var w := UnloadEach(v, CoordsOf(PurgeScan(order, total, budget, protect).0));
            forall c :: c in protect && c in v.records ==> c in w.records && w.records[c] == v.records[c]
  {
    var ev := PurgeScan(order, total, budget, protect).0;
    var cs := CoordsOf(ev);
    UnloadEachRecords(v, cs);
  }

  /** With every estimate zero, as the constructor leaves them, the total is zero. */
  lemma {:induction false} ZeroEstimatesTotalZero(recs: map<ChunkCoord, ChunkRecord>)
    requires forall c :: c in recs ==> recs[c].estimatedMemoryBytes == 0
    ensures TotalMemory(recs) == 0
    decreases |recs|
  {
    if |recs| > 0 {
      var c := Pick(recs.Keys);
      ZeroEstimatesTotalZero(recs - {c});
    }
  }

  ghost predicate ZeroEstimates(v: LoaderView)
  {
    forall c :: c in v.records ==> v.records[c].estimatedMemoryBytes == 0
  }

  /** No loader operation writes a memory estimate, so zero estimates stay zero. */
  lemma ZeroEstimatesPreserved(v: LoaderView, coord: ChunkCoord, catalog: set<string>, throws: bool,
                               poll: Handle -> HandleStatus, now: int, maxRetries: int, priority: real)
    requires ZeroEstimates(v)
    ensures ZeroEstimates(EnqueueLoadSpec(v, coord, priority))
    ensures ZeroEstimates(UnloadSpec(v, coord))
    ensures ZeroEstimates(UpdateAccessSpec(v, coord, now))
    ensures ZeroEstimates(StartLoadSpec(v, coord, catalog, throws, now, maxRetries).0)
    ensures ZeroEstimates(CompletionSpec(v, coord, poll, now, maxRetries).0)
  {
    ZeroEstimatesAfterStart(v, coord, catalog, throws, now, maxRetries);
    ZeroEstimatesAfterCompletion(v, coord, poll, now, maxRetries);
  }

  lemma ZeroEstimatesAfterStart(v: LoaderView, coord: ChunkCoord, catalog: set<string>, throws: bool, now: int, maxRetries: int)
    requires ZeroEstimates(v)
    ensures ZeroEstimates(StartLoadSpec(v, coord, catalog, throws, now, maxRetries).0)
  {
    ZeroEstimatesAfterFailure(v, coord, maxRetries);
  }

  lemma ZeroEstimatesAfterCompletion(v: LoaderView, coord: ChunkCoord, poll: Handle -> HandleStatus, now: int, maxRetries: int)
    requires ZeroEstimates(v)
    ensures ZeroEstimates(CompletionSpec(v, coord, poll, now, maxRetries).0)
  {
    if coord in v.pending {
      ZeroEstimatesAfterFailure(v.(pending := v.pending - {coord}, loading := v.loading - {coord}), coord, maxRetries);
    }
  }

  lemma ZeroEstimatesAfterFailure(v: LoaderView, coord: ChunkCoord, maxRetries: int)
    requires ZeroEstimates(v)
    ensures ZeroEstimates(HandleLoadFailureSpec(v, coord, maxRetries).0)
  {
  }

  /** With zero estimates and a non-negative budget a purge unloads nothing and reports zero. */
  lemma PurgeWithZeroEstimatesIsNoOp(v: LoaderView, order: seq<AccessEntry>, budget: int, protect: set<ChunkCoord>)
    requires ZeroEstimates(v) && budget >= 0
    ensures var scan := PurgeScan(order, TotalMemory(v.records), budget, protect);
            scan == ([], 0) && UnloadEach(v, CoordsOf(scan.0)) == v
  {
    ZeroEstimatesTotalZero(v.records);
  }
}
