/**
 * The chunk loader: a cache of chunk records, the handles of loads in
 * flight, the set of coordinates currently loading, per-chunk retry
 * counters, the ids known to be absent from the asset catalog, and the
 * priority queue of loads waiting to start.
 *
 * The asset system is outside the model: the catalog of locatable ids is a
 * set, the completion state of a load handle is a function `poll`, whether a
 * call to start an asynchronous load throws is an oracle sequence consumed
 * one entry per call, and the clock is a `now` parameter. An exception
 * thrown by indexing the cache at an absent coordinate is the outcome
 * `KeyNotFound`; it ends the operation that raised it.
 *
 * Each operation is first stated as a function on `LoaderView`, the value of
 * the loader's state, and each method of the `ChunkLoader` class is proved
 * to change the state exactly as its function says.
 */
module ChunkLoaders {
  import opened Wrappers
  import opened ChunkCoords
  import opened ChunkGrids
  import opened LoadQueues
  import opened ChunkDatas
  import opened Sorting
  import opened StreamerSettings

  /** An asynchronous load operation, known to the model only by identity. */
  type Handle = nat

  datatype HandleStatus = Running | Succeeded(asset: Asset) | LoadFailed

  predicate IsDone(s: HandleStatus) { !s.Running? }

  /** Normal completion, or a KeyNotFoundException from the cache indexer. */
  datatype Outcome = Ok | KeyNotFound(coord: ChunkCoord)

  /** The loader's state as a value; `released` logs every instance handed back to the asset system. */
  datatype LoaderView = LoaderView(
    records: map<ChunkCoord, ChunkRecord>,
    pending: map<ChunkCoord, Handle>,
    loading: set<ChunkCoord>,
    retry: map<ChunkCoord, int>,
    missing: set<string>,
    queued: multiset<QueueItem>,
    nextHandle: nat,
    released: seq<Asset>)

  /** The currently-loading set always names exactly the coordinates holding a pending handle. */
  predicate InFlightConsistent(v: LoaderView)
  {
    v.loading == v.pending.Keys
  }

  // ---------------------------------------------------------------------
  // The operations as functions on the state
  // ---------------------------------------------------------------------

  /** Queues a load unless the coordinate is cached, loading or pending; the queue itself is not consulted. */
  function EnqueueLoadSpec(v: LoaderView, coord: ChunkCoord, priority: real): (w: LoaderView)
    ensures InFlightConsistent(v) ==> InFlightConsistent(w)
  {
    if coord in v.records || coord in v.loading || coord in v.pending then v
    else v.(queued := v.queued + multiset{QueueItem(coord, priority)})
  }

  /**
   * Counts one more failure; below the retry limit the coordinate is queued
   * again at the largest priority, otherwise its record is marked Failed and
   * the counter dropped. The record must exist by then: if it does not, the
   * indexer throws after the counter has been written.
   */
  function HandleLoadFailureSpec(v: LoaderView, coord: ChunkCoord, maxRetries: int): (r: (LoaderView, Outcome))
    ensures InFlightConsistent(v) ==> InFlightConsistent(r.0)
    ensures r.0.records.Keys == v.records.Keys && r.0.pending == v.pending && r.0.loading == v.loading
  {
    var n := (if coord in v.retry then v.retry[coord] else 0) + 1;
    var counted := v.(retry := v.retry[coord := n]);
    if n < maxRetries then
      (counted.(queued := v.queued + multiset{QueueItem(coord, FloatMaxValue)}), Ok)
    else if coord !in v.records then
      (counted, KeyNotFound(coord))
    else
      (counted.(records := v.records[coord := v.records[coord].(state := Failed)], retry := counted.retry - {coord}), Ok)
  }

  /**
   * Starts loading one dequeued coordinate: an id already known missing is
   * dropped, an id the catalog cannot locate is remembered as missing and
   * dropped, a start that throws counts as a failure, and otherwise a new
   * handle is recorded and the (possibly new) record is marked Loading.
   */
  function StartLoadSpec(v: LoaderView, coord: ChunkCoord, catalog: set<string>, throws: bool, now: int, maxRetries: int)
    : (r: (LoaderView, Outcome))
    ensures InFlightConsistent(v) ==> InFlightConsistent(r.0)
    ensures r.0.loading <= v.loading + {coord}
  {
    var id := ToChunkId(coord);
    if id in v.missing then (v, Ok)
    else if id !in catalog then (v.(missing := v.missing + {id}), Ok)
    else if throws then HandleLoadFailureSpec(v, coord, maxRetries)
    else
      var started := v.(pending := v.pending[coord := v.nextHandle], loading := v.loading + {coord}, nextHandle := v.nextHandle + 1);
      var cached := if coord in v.records then started else started.(records := v.records[coord := NewRecord(now)]);
      (cached.(records := cached.records[coord := cached.records[coord].(state := Loading)]), Ok)
  }

  /**
   * Retires the pending handle of `coord`: on success the record receives the
   * instance, becomes Loaded and is stamped; on failure the failure path runs.
   * The success path indexes the cache, which throws when the record is gone.
   */
  function CompletionSpec(v: LoaderView, coord: ChunkCoord, poll: Handle -> HandleStatus, now: int, maxRetries: int)
    : (r: (LoaderView, Outcome))
    ensures InFlightConsistent(v) ==> InFlightConsistent(r.0)
    ensures r.0.pending == v.pending - {coord}
    ensures InFlightConsistent(v) ==> r.0.loading == v.loading - {coord}
  {
    if coord !in v.pending then (v, Ok)
    else
      var retired := v.(pending := v.pending - {coord}, loading := v.loading - {coord});
      match poll(v.pending[coord])
      case Succeeded(asset) =>
        if coord !in v.records then (retired, KeyNotFound(coord))
        else
          var rec := v.records[coord].(root := Some(asset), state := Loaded, lastAccessTicks := now);
          (retired.(records := v.records[coord := rec]), Ok)
      case _ => HandleLoadFailureSpec(retired, coord, maxRetries)
  }

  /** A failure never issues a handle or forgets a missing id, and queues at most the retry itself. */
  lemma HandleLoadFailureBounds(v: LoaderView, coord: ChunkCoord, maxRetries: int)
    ensures var r := HandleLoadFailureSpec(v, coord, maxRetries);
            && r.0.nextHandle == v.nextHandle && r.0.missing == v.missing
            && (r.0.queued == v.queued || r.0.queued == v.queued + multiset{QueueItem(coord, FloatMaxValue)})
  {
  }

  /**
   * Starting a load issues at most the next handle, to `coord` only, never
   * forgets a missing id, and re-queues only when the start threw.
   */
  lemma StartLoadBounds(v: LoaderView, coord: ChunkCoord, catalog: set<string>, throws: bool, now: int, maxRetries: int)
    ensures var r := StartLoadSpec(v, coord, catalog, throws, now, maxRetries);
            && (r.0.pending == v.pending || r.0.pending == v.pending[coord := v.nextHandle])
            && r.0.nextHandle >= v.nextHandle && v.missing <= r.0.missing
            && (r.0.queued == v.queued || (throws && r.0.queued == v.queued + multiset{QueueItem(coord, FloatMaxValue)}))
  {
    var id := ToChunkId(coord);
    if id !in v.missing && id in catalog {
      if throws {
        HandleLoadFailureBounds(v, coord, maxRetries);
      } else {
        var r := StartLoadSpec(v, coord, catalog, throws, now, maxRetries);
        assert r.0.pending == v.pending[coord := v.nextHandle] && r.0.queued == v.queued;
      }
    }
  }

  /**
   * Between `v0` and `w` no missing id was forgotten, no handle number was
   * reused, and every pending handle is either one issued since `v0` or one
   * `v0` already held for the same coordinate.
   */
  ghost predicate Issued(v0: LoaderView, w: LoaderView)
  {
    && v0.missing <= w.missing && v0.nextHandle <= w.nextHandle
    && forall c :: c in w.pending ==> w.pending[c] >= v0.nextHandle || (c in v0.pending && w.pending[c] == v0.pending[c])
  }

  lemma IssuedRefl(v: LoaderView)
    ensures Issued(v, v)
  {
  }

  lemma IssuedTrans(u: LoaderView, v: LoaderView, w: LoaderView)
    requires Issued(u, v) && Issued(v, w)
    ensures Issued(u, w)
  {
  }

  /** A start keeps `Issued` and adds at most one coordinate to the loading set. */
  lemma StartLoadIssues(v0: LoaderView, v: LoaderView, coord: ChunkCoord, catalog: set<string>, throws: bool, now: int, maxRetries: int)
    requires Issued(v0, v)
    ensures Issued(v0, StartLoadSpec(v, coord, catalog, throws, now, maxRetries).0)
    ensures |StartLoadSpec(v, coord, catalog, throws, now, maxRetries).0.queued| <= |v.queued| + (if throws then 1 else 0)
  {
    StartLoadBounds(v, coord, catalog, throws, now, maxRetries);
  }

  /** Completing a load issues no handle and forgets no missing id. */
  lemma CompletionBounds(v: LoaderView, coord: ChunkCoord, poll: Handle -> HandleStatus, now: int, maxRetries: int)
    ensures var r := CompletionSpec(v, coord, poll, now, maxRetries);
            r.0.nextHandle == v.nextHandle && r.0.missing == v.missing
  {
    if coord in v.pending {
      HandleLoadFailureBounds(v.(pending := v.pending - {coord}, loading := v.loading - {coord}), coord, maxRetries);
    }
  }

  // ---------------------------------------------------------------------
  // One frame as folds of the single steps
  // ---------------------------------------------------------------------

  /**
   * Retires the listed coordinates in turn. A KeyNotFound ends the phase at
   * the coordinate that raised it; when none is raised, exactly the listed
   * coordinates have left the pending handles.
   */
  function CompleteEach(v: LoaderView, coords: seq<ChunkCoord>, poll: Handle -> HandleStatus, now: int, maxRetries: int)
    : (r: (LoaderView, Outcome))
    ensures InFlightConsistent(v) ==> InFlightConsistent(r.0)
    ensures r.1.Ok? ==> r.0.pending == v.pending - (set c | c in coords)
    decreases |coords|
  {
    if |coords| == 0 then (v, Ok)
    else
      var s := CompletionSpec(v, coords[0], poll, now, maxRetries);
      if s.1.KeyNotFound? then s
      else
        var rest := CompleteEach(s.0, coords[1..], poll, now, maxRetries);
        assert (set c | c in coords) == {coords[0]} + (set c | c in coords[1..]);
        rest
  }

  lemma {:induction false} CompleteEachSnoc(v: LoaderView, cs: seq<ChunkCoord>, c: ChunkCoord, poll: Handle -> HandleStatus, now: int, maxRetries: int)
    requires CompleteEach(v, cs, poll, now, maxRetries).1.Ok?
    ensures CompleteEach(v, cs + [c], poll, now, maxRetries) == CompletionSpec(CompleteEach(v, cs, poll, now, maxRetries).0, c, poll, now, maxRetries)
    decreases |cs|
  {
    if |cs| == 0 {
      assert cs + [c] == [c];
    } else {
      TailSnoc(cs, c);
      CompleteEachSnoc(CompletionSpec(v, cs[0], poll, now, maxRetries).0, cs[1..], c, poll, now, maxRetries);
    }
  }

  lemma TailSnoc<T>(s: seq<T>, x: T)
    requires |s| > 0
    ensures (s + [x])[0] == s[0] && (s + [x])[1..] == s[1..] + [x]
  {
  }

  /** `done` lists, without repetition, pending coordinates of `v` whose handles are done. */
  ghost predicate DoneHandles(v: LoaderView, done: seq<ChunkCoord>, poll: Handle -> HandleStatus)
  {
    && (forall i, j :: 0 <= i < j < |done| ==> done[i] != done[j])
    && (forall c :: c in done ==> c in v.pending && IsDone(poll(v.pending[c])))
  }

  /** Takes `item` off the queue and starts loading its coordinate. */
  function DequeueStart(v: LoaderView, item: QueueItem, throws: bool, catalog: set<string>, now: int, maxRetries: int)
    : (r: (LoaderView, Outcome))
    ensures InFlightConsistent(v) ==> InFlightConsistent(r.0)
    ensures r.0.loading <= v.loading + {item.coord}
  {
    StartLoadSpec(v.(queued := v.queued - multiset{item}), item.coord, catalog, throws, now, maxRetries)
  }

  /** Performs the listed (item, start throws) steps in turn; a KeyNotFound ends the phase. */
  function StartEach(v: LoaderView, starts: seq<(QueueItem, bool)>, catalog: set<string>, now: int, maxRetries: int)
    : (r: (LoaderView, Outcome))
    ensures InFlightConsistent(v) ==> InFlightConsistent(r.0)
    decreases |starts|
  {
    if |starts| == 0 then (v, Ok)
    else
      var s := DequeueStart(v, starts[0].0, starts[0].1, catalog, now, maxRetries);
      if s.1.KeyNotFound? then s else StartEach(s.0, starts[1..], catalog, now, maxRetries)
  }

  lemma {:induction false} StartEachSnoc(v: LoaderView, starts: seq<(QueueItem, bool)>, p: (QueueItem, bool), catalog: set<string>, now: int, maxRetries: int)
    requires StartEach(v, starts, catalog, now, maxRetries).1.Ok?
    ensures StartEach(v, starts + [p], catalog, now, maxRetries) == DequeueStart(StartEach(v, starts, catalog, now, maxRetries).0, p.0, p.1, catalog, now, maxRetries)
    decreases |starts|
  {
    if |starts| == 0 {
      assert starts + [p] == [p];
    } else {
      TailSnoc(starts, p);
      StartEachSnoc(DequeueStart(v, starts[0].0, starts[0].1, catalog, now, maxRetries).0, starts[1..], p, catalog, now, maxRetries);
    }
  }

  /** `item` is in the queue and no queued item has a smaller distance. */
  ghost predicate QueueMinimum(item: QueueItem, q: multiset<QueueItem>)
  {
    item in q && forall x :: x in q ==> item.distance <= x.distance
  }

  /**
   * `starts` is how the start phase runs from `v`: every step begins while
   * fewer than `cap` coordinates are loading, takes an item of least distance
   * off the queue, and only the last step may raise KeyNotFound.
   */
  ghost predicate StartsInOrder(v: LoaderView, starts: seq<(QueueItem, bool)>, cap: int, catalog: set<string>, now: int, maxRetries: int)
    decreases |starts|
  {
    |starts| == 0 ||
    (&& |v.loading| < cap
     && QueueMinimum(starts[0].0, v.queued)
     && var s := DequeueStart(v, starts[0].0, starts[0].1, catalog, now, maxRetries);
        if s.1.KeyNotFound? then |starts| == 1 else StartsInOrder(s.0, starts[1..], cap, catalog, now, maxRetries))
  }

  lemma {:induction false} StartsInOrderSnoc(v: LoaderView, starts: seq<(QueueItem, bool)>, p: (QueueItem, bool), cap: int, catalog: set<string>, now: int, maxRetries: int)
    requires StartsInOrder(v, starts, cap, catalog, now, maxRetries) && StartEach(v, starts, catalog, now, maxRetries).1.Ok?
    requires |StartEach(v, starts, catalog, now, maxRetries).0.loading| < cap
    requires QueueMinimum(p.0, StartEach(v, starts, catalog, now, maxRetries).0.queued)
    ensures StartsInOrder(v, starts + [p], cap, catalog, now, maxRetries)
    decreases |starts|
  {
    if |starts| == 0 {
      assert starts + [p] == [p];
    } else {
      var s := DequeueStart(v, starts[0].0, starts[0].1, catalog, now, maxRetries);
      TailSnoc(starts, p);
      StartsInOrderSnoc(s.0, starts[1..], p, cap, catalog, now, maxRetries);
    }
  }

  /**
   * `done` and `starts` are how a frame from `v` runs: `done` lists pending
   * coordinates whose handles are done, all of them unless retiring one
   * raised KeyNotFound, in which case nothing is started; `starts` is the
   * start phase under the cap `cap`, its `k`-th start throwing as entry `k`
   * of `startThrows` says (and not at all beyond it).
   */
  ghost predicate FrameOrder(v: LoaderView, done: seq<ChunkCoord>, starts: seq<(QueueItem, bool)>, poll: Handle -> HandleStatus,
                             cap: int, catalog: set<string>, startThrows: seq<bool>, now: int, maxRetries: int)
  {
    && DoneHandles(v, done, poll)
    && var retired := CompleteEach(v, done, poll, now, maxRetries);
       if retired.1.KeyNotFound? then starts == []
       else
         && (forall c :: c in v.pending && IsDone(poll(v.pending[c])) ==> c in done)
         && StartsInOrder(retired.0, starts, cap, catalog, now, maxRetries)
         && (forall k :: 0 <= k < |starts| ==> starts[k].1 == ThrowsAt(startThrows, k))
  }

  /** Whether the `k`-th start of a frame throws: as entry `k` says, and not beyond the entries. */
  function ThrowsAt(startThrows: seq<bool>, k: int): bool
  {
    0 <= k < |startThrows| && startThrows[k]
  }

  /** Starts that each threw as their entry of `startThrows` says stay so when one more such start follows. */
  lemma ThrowsSnoc(starts: seq<(QueueItem, bool)>, p: (QueueItem, bool), startThrows: seq<bool>)
    requires forall k :: 0 <= k < |starts| ==> starts[k].1 == ThrowsAt(startThrows, k)
    requires p.1 == ThrowsAt(startThrows, |starts|)
    ensures forall k :: 0 <= k < |starts + [p]| ==> (starts + [p])[k].1 == ThrowsAt(startThrows, k)
  {
  }

  /** The second phase so far: from `v0`, the starts of `starts` ran under the cap and reached `w` with outcome `r`. */
  ghost predicate StartRun(v0: LoaderView, w: LoaderView, r: Outcome, starts: seq<(QueueItem, bool)>, startThrows: seq<bool>,
                           cap: int, catalog: set<string>, now: int, maxRetries: int)
  {
    && |w.loading| <= Max(cap, |v0.loading|)
    && Issued(v0, w)
    && (w, r) == StartEach(v0, starts, catalog, now, maxRetries)
    && StartsInOrder(v0, starts, cap, catalog, now, maxRetries)
    && forall k :: 0 <= k < |starts| ==> starts[k].1 == ThrowsAt(startThrows, k)
  }

  /** One more start, taken below the cap, extends the run. */
  lemma StartRunStep(v0: LoaderView, v: LoaderView, w: LoaderView, r: Outcome, starts: seq<(QueueItem, bool)>, p: (QueueItem, bool),
                     startThrows: seq<bool>, cap: int, catalog: set<string>, now: int, maxRetries: int)
    requires StartRun(v0, v, Ok, starts, startThrows, cap, catalog, now, maxRetries)
    requires |v.loading| < cap && |w.loading| <= |v.loading| + 1 && Issued(v, w)
    requires (w, r) == StartEach(v0, starts + [p], catalog, now, maxRetries)
    requires StartsInOrder(v0, starts + [p], cap, catalog, now, maxRetries)
    requires p.1 == ThrowsAt(startThrows, |starts|)
    ensures StartRun(v0, w, r, starts + [p], startThrows, cap, catalog, now, maxRetries)
  {
    IssuedTrans(v0, v, w);
    ThrowsSnoc(starts, p, startThrows);
  }

  lemma DoneHandlesPrefix(v: LoaderView, done: seq<ChunkCoord>, n: int, poll: Handle -> HandleStatus)
    requires DoneHandles(v, done, poll) && 0 <= n <= |done|
    ensures DoneHandles(v, done[..n], poll)
  {
    assert forall c :: c in done[..n] ==> c in done;
  }

  /** The first phase so far: from `v0`, the retirements of `done` reached `w` with outcome `r`, issuing no handle and forgetting no id. */
  ghost predicate RetireRun(v0: LoaderView, w: LoaderView, r: Outcome, done: seq<ChunkCoord>, poll: Handle -> HandleStatus, now: int, maxRetries: int)
  {
    && (w, r) == CompleteEach(v0, done, poll, now, maxRetries)
    && w.nextHandle == v0.nextHandle && w.missing == v0.missing
    && forall c :: c in w.pending ==> c in v0.pending && w.pending[c] == v0.pending[c]
  }

  /** One more retirement, which drops its coordinate's handle and issues none, extends the run. */
  lemma RetireRunStep(v0: LoaderView, v: LoaderView, w: LoaderView, r: Outcome, done: seq<ChunkCoord>, c: ChunkCoord,
                      poll: Handle -> HandleStatus, now: int, maxRetries: int)
    requires RetireRun(v0, v, Ok, done, poll, now, maxRetries)
    requires (w, r) == CompleteEach(v0, done + [c], poll, now, maxRetries)
    requires w.nextHandle == v.nextHandle && w.missing == v.missing && w.pending == v.pending - {c}
    ensures RetireRun(v0, w, r, done + [c], poll, now, maxRetries)
  {
  }

  lemma PrefixSnoc<T>(s: seq<T>, i: int)
    requires 0 <= i < |s|
    ensures s[..i + 1] == s[..i] + [s[i]]
  {
  }

  /** A dequeue of a least item followed by its start, seen on views: the run grows by that start. */
  lemma StartOneStep(v0: LoaderView, before: LoaderView, mid: LoaderView, after: LoaderView, r: Outcome,
                     starts: seq<(QueueItem, bool)>, removed: QueueItem, throws: bool, startThrows: seq<bool>,
                     cap: int, catalog: set<string>, now: int, maxRetries: int)
    requires StartRun(v0, before, Ok, starts, startThrows, cap, catalog, now, maxRetries)
    requires |before.loading| < cap && throws == ThrowsAt(startThrows, |starts|)
    requires QueueMinimum(removed, before.queued) && mid == before.(queued := before.queued - multiset{removed})
    requires (after, r) == StartLoadSpec(mid, removed.coord, catalog, throws, now, maxRetries)
    ensures StartRun(v0, after, r, starts + [(removed, throws)], startThrows, cap, catalog, now, maxRetries)
    ensures |after.queued| <= |before.queued| - 1 + (if throws then 1 else 0)
  {
    StartStep(v0, starts, (removed, throws), cap, catalog, now, maxRetries);
    StartRunStep(v0, before, after, r, starts, (removed, throws), startThrows, cap, catalog, now, maxRetries);
  }

  /**
   * One more start after an uninterrupted run of them: the fold and the
   * order extend by it, it issues handles only, loads at most one more
   * coordinate, and removes its item from the queue unless it threw.
   */
  lemma StartStep(v0: LoaderView, starts: seq<(QueueItem, bool)>, p: (QueueItem, bool), cap: int, catalog: set<string>, now: int, maxRetries: int)
    requires StartsInOrder(v0, starts, cap, catalog, now, maxRetries) && StartEach(v0, starts, catalog, now, maxRetries).1.Ok?
    requires var w := StartEach(v0, starts, catalog, now, maxRetries).0; |w.loading| < cap && QueueMinimum(p.0, w.queued)
    ensures var w := StartEach(v0, starts, catalog, now, maxRetries).0;
            var s := DequeueStart(w, p.0, p.1, catalog, now, maxRetries);
            && StartEach(v0, starts + [p], catalog, now, maxRetries) == s
            && StartsInOrder(v0, starts + [p], cap, catalog, now, maxRetries)
            && Issued(w, s.0) && |s.0.loading| <= |w.loading| + 1
            && |s.0.queued| <= |w.queued| - 1 + (if p.1 then 1 else 0)
  {
    var w := StartEach(v0, starts, catalog, now, maxRetries).0;
    var v := w.(queued := w.queued - multiset{p.0});
    StartEachSnoc(v0, starts, p, catalog, now, maxRetries);
    StartsInOrderSnoc(v0, starts, p, cap, catalog, now, maxRetries);
    IssuedRefl(w);
    StartLoadIssues(w, v, p.0.coord, catalog, p.1, now, maxRetries);
    CardinalityMono(DequeueStart(w, p.0, p.1, catalog, now, maxRetries).0.loading, w.loading + {p.0.coord});
  }

  /** The frame's start phase as it follows its retire phase: none after a KeyNotFound. */
  function FrameSpec(v: LoaderView, done: seq<ChunkCoord>, starts: seq<(QueueItem, bool)>, poll: Handle -> HandleStatus,
                     catalog: set<string>, now: int, maxRetries: int): (r: (LoaderView, Outcome))
  {
    var retired := CompleteEach(v, done, poll, now, maxRetries);
    if retired.1.KeyNotFound? then retired else StartEach(retired.0, starts, catalog, now, maxRetries)
  }

  /** Drops a cached record and its retry counter, releasing its instance; pending handles are not touched. */
  function UnloadSpec(v: LoaderView, coord: ChunkCoord): (w: LoaderView)
    ensures InFlightConsistent(v) ==> InFlightConsistent(w)
    ensures w.records == v.records - {coord}
  {
    if coord !in v.records then v
    else
      var gone := if v.records[coord].root.Some? then [v.records[coord].root.value] else [];
      v.(records := v.records - {coord}, retry := v.retry - {coord}, released := v.released + gone)
  }

  function UnloadEach(v: LoaderView, coords: seq<ChunkCoord>): (w: LoaderView)
    ensures InFlightConsistent(v) ==> InFlightConsistent(w)
    decreases |coords|
  {
    if |coords| == 0 then v else UnloadEach(UnloadSpec(v, coords[0]), coords[1..])
  }

  function UpdateAccessSpec(v: LoaderView, coord: ChunkCoord, now: int): (w: LoaderView)
  {
    if coord !in v.records then v
    else v.(records := v.records[coord := v.records[coord].(lastAccessTicks := now)])
  }

  // ---------------------------------------------------------------------
  // Memory accounting and the least-recently-used purge
  // ---------------------------------------------------------------------

  ghost function Pick(s: set<ChunkCoord>): ChunkCoord
    requires s != {}
  {
    var c :| c in s; c
  }

  /** Sum of the memory estimates of all records. */
  ghost function TotalMemory(recs: map<ChunkCoord, ChunkRecord>): int
    decreases |recs|
  {
    if |recs| == 0 then 0
    else
      var c := Pick(recs.Keys);
      recs[c].estimatedMemoryBytes + TotalMemory(recs - {c})
  }

  /** The sum does not depend on which record is taken out first. */
  lemma {:induction false} TotalMemoryRemove(recs: map<ChunkCoord, ChunkRecord>, c: ChunkCoord)
    requires c in recs
    ensures TotalMemory(recs) == recs[c].estimatedMemoryBytes + TotalMemory(recs - {c})
    decreases |recs|
  {
    var d := Pick(recs.Keys);
    if d != c {
      TotalMemoryRemove(recs - {d}, c);
      TotalMemoryRemove(recs - {c}, d);
      assert recs - {d} - {c} == recs - {c} - {d};
    }
  }

  /** A cached record as the purge sees it: its cell, access stamp and memory estimate. */
  datatype AccessEntry = AccessEntry(coord: ChunkCoord, ticks: int, memory: int)

  function EntryOf(c: ChunkCoord, rec: ChunkRecord): AccessEntry
  {
    AccessEntry(c, rec.lastAccessTicks, rec.estimatedMemoryBytes)
  }

  /** The purge's comparison: older access first. */
  function TicksLe(): (AccessEntry, AccessEntry) -> bool
  {
    (a: AccessEntry, b: AccessEntry) => a.ticks <= b.ticks
  }

  lemma TicksLeIsTotalPreorder()
    ensures TotalPreorder(TicksLe())
  {
  }

  /** `order` lists the entries of every record and nothing else, in ascending access time. */
  ghost predicate IsAccessOrder(order: seq<AccessEntry>, recs: map<ChunkCoord, ChunkRecord>)
  {
    && SortedBy(order, TicksLe())
    && |order| == |recs|
    && (forall e :: e in order ==> e.coord in recs && e == EntryOf(e.coord, recs[e.coord]))
    && (forall c :: c in recs ==> EntryOf(c, recs[c]) in order)
  }

  /**
   * The purge loop over entries in access order: stop as soon as the running
   * total is within budget, skip protected cells, and evict every other entry,
   * subtracting its estimate. Yields the evicted entries and the final total.
   */
  function PurgeScan(order: seq<AccessEntry>, total: int, budget: int, protect: set<ChunkCoord>)
    : (r: (seq<AccessEntry>, int))
    ensures forall e :: e in r.0 ==> e in order && e.coord !in protect
    decreases |order|
  {
    if |order| == 0 || total <= budget then ([], total)
    else if order[0].coord in protect then PurgeScan(order[1..], total, budget, protect)
    else
      var rest := PurgeScan(order[1..], total - order[0].memory, budget, protect);
      ([order[0]] + rest.0, rest.1)
  }

  /**
   * After `i` entries of `sorted`, having evicted `evicted` and holding a
   * running total of `total`, the rest of the scan completes the whole one.
   */
  ghost predicate ScanAt(sorted: seq<AccessEntry>, total0: int, budget: int, protect: set<ChunkCoord>,
                         i: int, total: int, evicted: seq<AccessEntry>)
  {
    && 0 <= i <= |sorted|
    && var rest := PurgeScan(sorted[i..], total, budget, protect);
       PurgeScan(sorted, total0, budget, protect) == (evicted + rest.0, rest.1)
  }

  lemma ScanStart(sorted: seq<AccessEntry>, total0: int, budget: int, protect: set<ChunkCoord>)
    ensures ScanAt(sorted, total0, budget, protect, 0, total0, [])
  {
    assert sorted[0..] == sorted;
    assert [] + PurgeScan(sorted, total0, budget, protect).0 == PurgeScan(sorted, total0, budget, protect).0;
  }

  lemma ScanAdvance(sorted: seq<AccessEntry>, total0: int, budget: int, protect: set<ChunkCoord>,
                    i: int, total: int, evicted: seq<AccessEntry>, total': int, evicted': seq<AccessEntry>)
    requires ScanAt(sorted, total0, budget, protect, i, total, evicted) && i < |sorted| && total > budget
    requires sorted[i].coord in protect ==> total' == total && evicted' == evicted
    requires sorted[i].coord !in protect ==> total' == total - sorted[i].memory && evicted' == evicted + [sorted[i]]
    ensures ScanAt(sorted, total0, budget, protect, i + 1, total', evicted')
  {
    var e := sorted[i];
    assert sorted[i..][0] == e && sorted[i..][1..] == sorted[i + 1..];
    if e.coord !in protect {
      var tail := PurgeScan(sorted[i + 1..], total - e.memory, budget, protect);
      assert evicted + ([e] + tail.0) == (evicted + [e]) + tail.0;
    }
  }

  lemma ScanStop(sorted: seq<AccessEntry>, total0: int, budget: int, protect: set<ChunkCoord>,
                 i: int, total: int, evicted: seq<AccessEntry>)
    requires ScanAt(sorted, total0, budget, protect, i, total, evicted) && (i == |sorted| || total <= budget)
    ensures PurgeScan(sorted, total0, budget, protect) == (evicted, total)
  {
    assert evicted + [] == evicted;
  }

  function CoordsOf(es: seq<AccessEntry>): (cs: seq<ChunkCoord>)
    ensures |cs| == |es| && forall i :: 0 <= i < |es| ==> cs[i] == es[i].coord
  {
    if |es| == 0 then [] else [es[0].coord] + CoordsOf(es[1..])
  }

  lemma {:induction false} UnloadEachSnoc(v: LoaderView, cs: seq<ChunkCoord>, c: ChunkCoord)
    ensures UnloadEach(v, cs + [c]) == UnloadSpec(UnloadEach(v, cs), c)
    decreases |cs|
  {
    if |cs| == 0 {
      assert cs + [c] == [c];
    } else {
      assert (cs + [c])[1..] == cs[1..] + [c];
      UnloadEachSnoc(UnloadSpec(v, cs[0]), cs[1..], c);
    }
  }

  lemma CoordsOfSnoc(es: seq<AccessEntry>, e: AccessEntry)
    ensures CoordsOf(es + [e]) == CoordsOf(es) + [e.coord]
  {
  }

  /** The entries of `es` outside the protected cells, in order. */
  function Unprotected(es: seq<AccessEntry>, protect: set<ChunkCoord>): (u: seq<AccessEntry>)
    ensures forall e :: e in u <==> e in es && e.coord !in protect
  {
    if |es| == 0 then []
    else (if es[0].coord in protect then [] else [es[0]]) + Unprotected(es[1..], protect)
  }

  function SumMemory(es: seq<AccessEntry>): int
  {
    if |es| == 0 then 0 else es[0].memory + SumMemory(es[1..])
  }

  lemma SumMemoryCons(e: AccessEntry, es: seq<AccessEntry>)
    ensures SumMemory([e] + es) == e.memory + SumMemory(es)
  {
    assert ([e] + es)[1..] == es;
  }

  /**
   * `r` evicts the first `k` entries of `u` and reports the total that is
   * left, `k` being the least count that brings the total within budget, or
   * all of `u` when no count does.
   */
  ghost predicate ShortestPrefixEviction(u: seq<AccessEntry>, total: int, budget: int, k: int, r: (seq<AccessEntry>, int))
  {
    && 0 <= k <= |u| && r.0 == u[..k] && r.1 == total - SumMemory(u[..k])
    && (k < |u| ==> r.1 <= budget)
    && (forall j :: 0 <= j < k ==> total - SumMemory(u[..j]) > budget)
  }

  /**
   * The purge evicts the shortest prefix of the unprotected entries, taken in
   * access order, whose removal brings the total within budget; when no prefix
   * does, it evicts them all and the returned total still exceeds the budget.
   */
  lemma {:induction false} PurgeScanEvictsShortestPrefix(order: seq<AccessEntry>, total: int, budget: int, protect: set<ChunkCoord>)
    ensures exists k :: ShortestPrefixEviction(Unprotected(order, protect), total, budget, k, PurgeScan(order, total, budget, protect))
    decreases |order|
  {
    var u := Unprotected(order, protect);
    var r := PurgeScan(order, total, budget, protect);
    if |order| == 0 || total <= budget {
      assert u[..0] == [];
      assert ShortestPrefixEviction(u, total, budget, 0, r);
    } else if order[0].coord in protect {
      PurgeScanEvictsShortestPrefix(order[1..], total, budget, protect);
      assert u == Unprotected(order[1..], protect);
    } else {
      var e := order[0];
      var u' := Unprotected(order[1..], protect);
      var r' := PurgeScan(order[1..], total - e.memory, budget, protect);
      assert u == [e] + u';
      PurgeScanEvictsShortestPrefix(order[1..], total - e.memory, budget, protect);
      var k' :| ShortestPrefixEviction(u', total - e.memory, budget, k', r');
      EvictionStep(e, u', total, budget, k', r');
    }
  }

  /** Evicting one more entry in front of a shortest-prefix eviction, from a total over budget, is one too. */
  lemma EvictionStep(e: AccessEntry, u: seq<AccessEntry>, total: int, budget: int, k: int, r: (seq<AccessEntry>, int))
    requires total > budget
    requires ShortestPrefixEviction(u, total - e.memory, budget, k, r)
    ensures ShortestPrefixEviction([e] + u, total, budget, k + 1, ([e] + r.0, r.1))
  {
    var w := [e] + u;
    forall j | 0 < j <= k + 1
      ensures w[..j] == [e] + u[..j - 1] && SumMemory(w[..j]) == e.memory + SumMemory(u[..j - 1])
    {
      assert w[..j] == [e] + u[..j - 1];
      SumMemoryCons(e, u[..j - 1]);
    }
    assert w[..0] == [];
  }

  /** Unloading a list of coordinates drops exactly their records. */
  lemma {:induction false} UnloadEachRecords(v: LoaderView, cs: seq<ChunkCoord>)
    ensures UnloadEach(v, cs).records == v.records - (set c | c in cs)
    decreases |cs|
  {
    if |cs| > 0 {
      UnloadEachRecords(UnloadSpec(v, cs[0]), cs[1..]);
      assert (set c | c in cs) == {cs[0]} + (set c | c in cs[1..]);
      assert v.records - {cs[0]} - (set c | c in cs[1..]) == v.records - (set c | c in cs);
    }
  }

  /** Unloading never touches handles, the loading set, the missing ids, the queue or the handle counter. */
  lemma {:induction false} UnloadEachKeepsInFlight(v: LoaderView, cs: seq<ChunkCoord>)
    ensures var w := UnloadEach(v, cs);
            w.pending == v.pending && w.loading == v.loading && w.missing == v.missing
            && w.queued == v.queued && w.nextHandle == v.nextHandle
    decreases |cs|
  {
    if |cs| > 0 {
      UnloadEachKeepsInFlight(UnloadSpec(v, cs[0]), cs[1..]);
    }
  }

  /** Sorting a listing of every record by access time yields an access order. */
  lemma SortedListingIsAccessOrder(es: seq<AccessEntry>, recs: map<ChunkCoord, ChunkRecord>)
    requires |es| == |recs|
    requires forall e :: e in es ==> e.coord in recs && e == EntryOf(e.coord, recs[e.coord])
    requires forall c :: c in recs ==> EntryOf(c, recs[c]) in es
    ensures TotalPreorder(TicksLe()) && IsAccessOrder(SortBy(es, TicksLe()), recs)
  {
    TicksLeIsTotalPreorder();
    var sorted := SortBy(es, TicksLe());
    forall e ensures e in sorted <==> e in es {
      assert e in sorted <==> e in multiset(sorted);
      assert e in es <==> e in multiset(es);
    }
  }

  lemma CardinalityMono<T>(a: set<T>, b: set<T>)
    requires a <= b
    ensures |a| <= |b|
  {
    assert b == a + (b - a);
  }

  /** The records held by a cache's objects. */
  ghost function RecordsOf(cache: map<ChunkCoord, ChunkData>): map<ChunkCoord, ChunkRecord>
    reads cache.Values
  {
    map c | c in cache :: cache[c].View()
  }

  // ---------------------------------------------------------------------
  // The loader object
  // ---------------------------------------------------------------------

  class ChunkLoader {
    /** The settings asset, from which the cap on concurrent loads and the retry limit are read at each use. */
    const settings: WorldStreamerSettings
    const queue: LoadQueue
    var cache: map<ChunkCoord, ChunkData>
    var pending: map<ChunkCoord, Handle>
    var loading: set<ChunkCoord>
    var retry: map<ChunkCoord, int>
    var missing: set<string>
    var nextHandle: nat
    ghost var released: seq<Asset>

    ghost predicate Valid()
      reads this, queue
    {
      && queue.Valid()
      && (forall c :: c in cache ==> cache[c].coord == c)
      && loading == pending.Keys
    }

    ghost function Records(): map<ChunkCoord, ChunkRecord>
      reads this`cache, cache.Values
    {
      RecordsOf(cache)
    }

    ghost function View(): LoaderView
      reads this, queue, cache.Values
    {
      LoaderView(RecordsOf(cache), pending, loading, retry, missing, queue.Contents(), nextHandle, released)
    }

    function PendingLoadCount(): (n: nat)
      reads this, queue
      ensures n == |queue.Contents()|
    {
      queue.Count()
    }

    function CurrentlyLoadingCount(): nat
      reads this
    {
      |loading|
    }

    constructor(settings: WorldStreamerSettings)
      ensures Valid() && fresh(queue)
      ensures this.settings == settings
      ensures View() == LoaderView(map[], map[], {}, map[], {}, multiset{}, 0, [])
    {
      this.settings := settings;
      queue := new LoadQueue();
      cache := map[];
      pending := map[];
      loading := {};
      retry := map[];
      missing := {};
      nextHandle := 0;
      released := [];
    }

    /** Writing the fields of one cached record changes that record's entry and no other. */
    twostate lemma RecordsAfterWrite(coord: ChunkCoord)
      requires old(Valid()) && coord in old(cache) && cache == old(cache)
      requires forall c :: c in cache && c != coord ==> unchanged(cache[c])
      ensures Records() == old(Records())[coord := cache[coord].View()]
    {
    }

    /** Dropping one key from the cache, leaving every other cached record untouched, drops that key's record. */
    twostate lemma RecordsAfterRemove(coord: ChunkCoord)
      requires old(Valid()) && cache == old(cache) - {coord}
      requires forall c :: c in cache ==> unchanged(cache[c])
      ensures Records() == old(Records()) - {coord}
    {
    }

    /** Sets the load state of one cached record. */
    method SetState(coord: ChunkCoord, state: LoadState)
      requires Valid() && coord in cache
      modifies cache[coord]
      ensures Valid() && cache == old(cache)
      ensures View() == old(View()).(records := old(View()).records[coord := old(View()).records[coord].(state := state)])
    {
      cache[coord].state := state;
      RecordsAfterWrite(coord);
    }

    /** Records the new failure count and puts the coordinate back on the queue at the largest priority. */
    method Requeue(coord: ChunkCoord, n: int)
      requires Valid()
      modifies this, queue
      ensures Valid() && cache == old(cache)
      ensures View() == old(View()).(retry := old(retry)[coord := n], queued := old(View()).queued + multiset{QueueItem(coord, FloatMaxValue)})
    {
      retry := retry[coord := n];
      queue.Enqueue(coord, FloatMaxValue);
    }

    /** Records the next handle as `coord`'s pending load and marks `coord` as loading. */
    method IssueHandle(coord: ChunkCoord)
      requires Valid()
      modifies this
      ensures Valid() && cache == old(cache)
      ensures View() == old(View()).(pending := old(pending)[coord := old(nextHandle)], loading := old(loading) + {coord}, nextHandle := old(nextHandle) + 1)
    {
      pending, loading, nextHandle := pending[coord := nextHandle], loading + {coord}, nextHandle + 1;
    }

    /** Creates a fresh record for `coord` unless one is cached. */
    method EnsureCached(coord: ChunkCoord, now: int)
      requires Valid()
      modifies this
      ensures Valid() && coord in cache
      ensures coord in old(cache) ==> cache == old(cache)
      ensures coord !in old(cache) ==> fresh(cache[coord]) && cache == old(cache)[coord := cache[coord]]
      ensures cache[coord] in old(cache.Values) || fresh(cache[coord])
      ensures View() == if coord in old(View()).records then old(View()) else old(View()).(records := old(View()).records[coord := NewRecord(now)])
    {
      if coord !in cache {
        var d := new ChunkData(coord, now);
        cache := cache[coord := d];
      }
    }

    /** Hands a loaded instance to its record, marks it Loaded and stamps the access time. */
    method CompleteLoad(coord: ChunkCoord, asset: Asset, now: int)
      requires Valid() && coord in cache
      modifies cache[coord]
      ensures Valid() && cache == old(cache)
      ensures View() == old(View()).(records := old(Records())[coord := old(Records())[coord].(root := Some(asset), state := Loaded, lastAccessTicks := now)])
    {
      var d := cache[coord];
      d.rootObject := Some(asset);
      d.state := Loaded;
      d.UpdateLastAccess(now);
      RecordsAfterWrite(coord);
    }

    method EnqueueLoad(coord: ChunkCoord, priority: real)
      requires Valid()
      modifies queue
      ensures Valid()
      ensures View() == EnqueueLoadSpec(old(View()), coord, priority)
    {
      if coord in cache || coord in loading || coord in pending {
        return;
      }
      queue.Enqueue(coord, priority);
    }

    method HandleLoadFailure(coord: ChunkCoord) returns (r: Outcome)
      requires Valid()
      modifies this, queue, cache.Values
      ensures Valid() && cache == old(cache)
      ensures (View(), r) == HandleLoadFailureSpec(old(View()), coord, settings.maxRetries)
    {
      var n := (if coord in retry then retry[coord] else 0) + 1;
      if n < settings.maxRetries {
        Requeue(coord, n);
        return Ok;
      }
      ghost var v := View();
      if coord !in cache {
        retry := retry[coord := n];
        assert View() == v.(retry := v.retry[coord := n]);
        return KeyNotFound(coord);
      }
      SetState(coord, Failed);
      ghost var failed := View();
      retry := retry[coord := n] - {coord};
      assert View() == failed.(retry := v.retry[coord := n] - {coord});
      return Ok;
    }

    method StartLoad(coord: ChunkCoord, catalog: set<string>, throws: bool, now: int) returns (r: Outcome)
      requires Valid()
      modifies this, queue, cache.Values
      ensures Valid() && forall o :: o in cache.Values ==> o in old(cache.Values) || fresh(o)
      ensures (View(), r) == StartLoadSpec(old(View()), coord, catalog, throws, now, settings.maxRetries)
    {
      var id := ToChunkId(coord);
      if id in missing {
        return Ok;
      }
      if id !in catalog {
        missing := missing + {id};
        return Ok;
      }
      if throws {
        r := HandleLoadFailure(coord);
        return;
      }
      ghost var v := View();
      IssueHandle(coord);
      ghost var started := View();
      assert started == v.(pending := v.pending[coord := v.nextHandle], loading := v.loading + {coord}, nextHandle := v.nextHandle + 1);
      EnsureCached(coord, now);
      ghost var cached := View();
      assert cached == if coord in v.records then started else started.(records := v.records[coord := NewRecord(now)]);
      SetState(coord, Loading);
      assert View() == cached.(records := cached.records[coord := cached.records[coord].(state := Loading)]);
      return Ok;
    }

    method ProcessLoadCompletion(coord: ChunkCoord, poll: Handle -> HandleStatus, now: int) returns (r: Outcome)
      requires Valid()
      modifies this, queue, cache.Values
      ensures Valid() && cache == old(cache)
      ensures (View(), r) == CompletionSpec(old(View()), coord, poll, now, settings.maxRetries)
    {
      if coord !in pending {
        return Ok;
      }
      var handle := pending[coord];
      ghost var v := View();
      pending, loading := pending - {coord}, loading - {coord};
      assert View() == v.(pending := v.pending - {coord}, loading := v.loading - {coord});
      match poll(handle) {
        case Succeeded(asset) =>
          if coord !in cache {
            return KeyNotFound(coord);
          }
          CompleteLoad(coord, asset, now);
          return Ok;
        case _ =>
          r := HandleLoadFailure(coord);
      }
    }

    method Unload(coord: ChunkCoord)
      requires Valid()
      modifies this, cache.Values
      ensures Valid() && cache == old(cache) - {coord}
      ensures View() == UnloadSpec(old(View()), coord)
    {
      if coord !in cache {
        return;
      }
      var d := cache[coord];
      ghost var gone := if d.rootObject.Some? then [d.rootObject.value] else [];
      if d.rootObject.Some? {
        d.rootObject := None;
      }
      cache, retry, released := cache - {coord}, retry - {coord}, released + gone;
      RecordsAfterRemove(coord);
    }

    method UpdateChunkAccess(coord: ChunkCoord, now: int)
      requires Valid()
      modifies cache.Values
      ensures Valid()
      ensures View() == UpdateAccessSpec(old(View()), coord, now)
    {
      if coord in cache {
        cache[coord].UpdateLastAccess(now);
      }
    }

    method CalculateTotalMemory() returns (total: int)
      requires Valid()
      ensures total == TotalMemory(Records())
    {
      total := 0;
      var rest := cache.Keys;
      ghost var left := Records();
      while rest != {}
        invariant rest == left.Keys && rest <= cache.Keys
        invariant forall c :: c in left ==> left[c] == Records()[c]
        invariant total + TotalMemory(left) == TotalMemory(Records())
        decreases |rest|
      {
        var c :| c in rest;
        TotalMemoryRemove(left, c);
        total := total + cache[c].estimatedMemoryBytes;
        rest := rest - {c};
        left := left - {c};
      }
    }
  
    /**
     * The cached records listed in the cache's enumeration order (which the
     * model leaves open), as the purge copies them before sorting.
     */
    method CacheEntries() returns (es: seq<AccessEntry>)
      requires Valid()
      ensures |es| == |Records()|
      ensures forall e :: e in es ==> e.coord in Records() && e == EntryOf(e.coord, Records()[e.coord])
      ensures forall c :: c in Records() ==> EntryOf(c, Records()[c]) in es
    {
      es := [];
      var rest := cache.Keys;
      assert Records().Keys == cache.Keys;
      while rest != {}
        invariant rest <= cache.Keys
        invariant |es| + |rest| == |cache.Keys|
        invariant forall e :: e in es ==> e.coord in cache && e.coord !in rest && e == EntryOf(e.coord, Records()[e.coord])
        invariant forall c :: c in cache && c !in rest ==> EntryOf(c, Records()[c]) in es
        decreases |rest|
      {
        var c :| c in rest;
        var d := cache[c];
        es := es + [AccessEntry(c, d.lastAccessTicks, d.estimatedMemoryBytes)];
        rest := rest - {c};
      }
    }

    /**
     * Brings the cached memory within `budget` by unloading least recently
     * accessed chunks outside the square of `protectionRadius` around
     * `center`. Returns the total after eviction, which may still exceed the
     * budget; `order` is the access order the purge walked.
     */
    method PurgeExcessMemory(budget: int, protectionRadius: int, center: ChunkCoord) returns (total: int, ghost order: seq<AccessEntry>)
      requires Valid()
      modifies this, cache.Values
      ensures Valid()
      ensures TotalMemory(old(Records())) > budget ==> IsAccessOrder(order, old(Records()))
      ensures var scan := PurgeScan(order, TotalMemory(old(Records())), budget, Neighbourhood(center, protectionRadius));
              total == scan.1 && View() == UnloadEach(old(View()), CoordsOf(scan.0))
    {
      total := CalculateTotalMemory();
      assert View() == old(View()) && Records() == old(Records());
      if total <= budget {
        order := [];
        assert PurgeScan(order, total, budget, Neighbourhood(center, protectionRadius)) == ([], total);
        assert UnloadEach(View(), CoordsOf([])) == View();
        return;
      }
      var protect := SquareAround(center, protectionRadius);
      var entries := CacheEntries();
      SortedListingIsAccessOrder(entries, Records());
      var sorted := SortBy(entries, TicksLe());
      order := sorted;
      ghost var evicted;
      assert View() == old(View());
      total, evicted := EvictInOrder(sorted, total, budget, protect);
    }

    /**
     * The purge's loop: walks `sorted`, stopping once the running total is
     * within budget, and unloads each unprotected entry, subtracting its
     * estimate.
     */
    method EvictInOrder(sorted: seq<AccessEntry>, total0: int, budget: int, protect: set<ChunkCoord>)
      returns (total: int, ghost evicted: seq<AccessEntry>)
      requires Valid()
      modifies this, cache.Values
      ensures Valid()
      ensures PurgeScan(sorted, total0, budget, protect) == (evicted, total)
      ensures View() == UnloadEach(old(View()), CoordsOf(evicted))
    {
      total := total0;
      evicted := [];
      var i := 0;
      ghost var v0 := View();
      ScanStart(sorted, total0, budget, protect);
      while i < |sorted|
        invariant Valid() && cache.Values <= old(cache.Values)
        invariant ScanAt(sorted, total0, budget, protect, i, total, evicted)
        invariant View() == UnloadEach(v0, CoordsOf(evicted))
      {
        if total <= budget {
          break;
        }
        var e := sorted[i];
        ghost var total1, evicted1 := total, evicted;
        if e.coord !in protect {
          total := total - e.memory;
          EvictEntry(v0, evicted, e);
          evicted := evicted + [e];
        }
        ScanAdvance(sorted, total0, budget, protect, i, total1, evicted1, total, evicted);
        i := i + 1;
      }
      ScanStop(sorted, total0, budget, protect, i, total, evicted);
    }

    /** One eviction of the purge's loop: unloads the entry's chunk after those already evicted. */
    method EvictEntry(ghost v0: LoaderView, ghost evicted: seq<AccessEntry>, e: AccessEntry)
      requires Valid() && View() == UnloadEach(v0, CoordsOf(evicted))
      modifies this, cache.Values
      ensures Valid() && cache.Values <= old(cache.Values)
      ensures View() == UnloadEach(v0, CoordsOf(evicted + [e]))
    {
      Unload(e.coord);
      UnloadEachSnoc(v0, CoordsOf(evicted), e.coord);
      CoordsOfSnoc(evicted, e);
    }

    /**
     * Unloads every cached chunk, in the cache's enumeration order, then
     * empties the queue, the handles, the loading set, the retry counters and
     * the missing ids.
     */
    method UnloadAll() returns (ghost order: seq<ChunkCoord>)
      requires Valid()
      modifies this, queue, cache.Values
      ensures Valid()
      ensures forall c :: c in order <==> c in old(cache)
      ensures View() == UnloadEach(old(View()), order).(pending := map[], loading := {}, retry := map[], missing := {}, queued := multiset{})
    {
      ghost var v0 := View();
      order := [];
      var rest := cache.Keys;
      while rest != {}
        invariant Valid() && rest == cache.Keys
        invariant cache.Values <= old(cache.Values)
        invariant forall c :: c in old(cache) <==> c in order || c in rest
        invariant View() == UnloadEach(v0, order)
        decreases |rest|
      {
        var c :| c in rest;
        Unload(c);
        UnloadEachSnoc(v0, order, c);
        order := order + [c];
        rest := rest - {c};
      }
      ClearInFlight();
    }

    /** Empties the queue, the handles, the loading set, the retry counters and the missing ids. */
    method ClearInFlight()
      requires Valid()
      modifies this, queue
      ensures Valid() && cache == old(cache)
      ensures View() == old(View()).(pending := map[], loading := {}, retry := map[], missing := {}, queued := multiset{})
    {
      queue.Clear();
      assert View() == old(View()).(queued := multiset{});
      pending, loading, retry, missing := map[], {}, map[], {};
    }

    /**
     * One frame of loading: retires every handle that is done, then starts
     * queued loads, nearest first, while fewer than the cap are loading.
     * Entry `k` of `startThrows` says whether the `k`-th start in this frame
     * throws; starts beyond it do not. A KeyNotFound from either phase ends
     * the frame where it was raised. `done` lists the retired coordinates and
     * `starts` the dequeued items, each in the order handled.
     */
    method Update(catalog: set<string>, poll: Handle -> HandleStatus, startThrows: seq<bool>, now: int)
      returns (r: Outcome, ghost done: seq<ChunkCoord>, ghost starts: seq<(QueueItem, bool)>)
      requires Valid()
      modifies this, queue, cache.Values
      ensures Valid() && forall o :: o in cache.Values ==> o in old(cache.Values) || fresh(o)
      ensures (View(), r) == FrameSpec(old(View()), done, starts, poll, catalog, now, settings.maxRetries)
      ensures FrameOrder(old(View()), done, starts, poll, settings.maxConcurrentLoads, catalog, startThrows, now, settings.maxRetries)
      ensures |loading| <= Max(settings.maxConcurrentLoads, |old(loading)|)
      ensures Issued(old(View()), View())
      ensures r.Ok? ==> queue.Count() == 0 || |loading| >= settings.maxConcurrentLoads
      ensures r.Ok? ==> forall c :: c in pending ==>
                pending[c] >= old(nextHandle) || (c in old(pending) && pending[c] == old(pending)[c] && !IsDone(poll(pending[c])))
    {
      starts := [];
      r, done := RetireDone(poll, now);
      CardinalityMono(loading, old(loading));
      if r.KeyNotFound? {
        return;
      }
      ghost var retired := View();
      r, starts := StartQueued(catalog, startThrows, now);
      IssuedTrans(old(View()), retired, View());
    }

    /**
     * The first phase of a frame: lists the pending coordinates whose handles
     * are done, then retires them in that order, which `done` records up to
     * the one that raised KeyNotFound, if any.
     */
    method RetireDone(poll: Handle -> HandleStatus, now: int) returns (r: Outcome, ghost done: seq<ChunkCoord>)
      requires Valid()
      modifies this, queue, cache.Values
      ensures Valid() && cache == old(cache)
      ensures (View(), r) == CompleteEach(old(View()), done, poll, now, settings.maxRetries)
      ensures DoneHandles(old(View()), done, poll)
      ensures r.Ok? ==> forall c :: c in old(pending) && IsDone(poll(old(pending)[c])) ==> c in done
      ensures Issued(old(View()), View()) && loading <= old(loading)
      ensures r.Ok? ==> forall c :: c in pending ==> !IsDone(poll(pending[c]))
    {
      ghost var v0 := View();
      var completed := CompletedLoads(poll);
      r, done := RetireEach(completed, poll, now, settings.maxRetries);
      DoneHandlesPrefix(v0, completed, |done|, poll);
    }

    /** Retires the listed coordinates in order, stopping at a KeyNotFound; `done` is the prefix handled. */
    method RetireEach(completed: seq<ChunkCoord>, poll: Handle -> HandleStatus, now: int, ghost limit: int)
      returns (r: Outcome, ghost done: seq<ChunkCoord>)
      requires Valid() && limit == settings.maxRetries
      modifies this, queue, cache.Values
      ensures Valid() && cache == old(cache)
      ensures |done| <= |completed| && done == completed[..|done|] && (r.Ok? ==> done == completed)
      ensures RetireRun(old(View()), View(), r, done, poll, now, limit)
    {
      ghost var v0 := View();
      r := Ok;
      var i := 0;
      while i < |completed|
        invariant 0 <= i <= |completed|
        invariant Valid() && cache == old(cache) && settings.maxRetries == limit
        invariant r == Ok && RetireRun(v0, View(), r, completed[..i], poll, now, limit)
      {
        r := RetireOne(v0, completed[..i], completed[i], poll, now, limit);
        PrefixSnoc(completed, i);
        i := i + 1;
        if r.KeyNotFound? {
          done := completed[..i];
          return;
        }
      }
      assert completed[..i] == completed;
      done := completed;
    }

    /** The pending coordinates whose handles are done, each once, in enumeration order. */
    method CompletedLoads(poll: Handle -> HandleStatus) returns (completed: seq<ChunkCoord>)
      requires Valid()
      ensures DoneHandles(View(), completed, poll)
      ensures forall c :: c in pending && IsDone(poll(pending[c])) ==> c in completed
    {
      completed := [];
      var rest := pending.Keys;
      while rest != {}
        invariant rest <= pending.Keys
        invariant forall i, j :: 0 <= i < j < |completed| ==> completed[i] != completed[j]
        invariant forall c :: c in completed ==> c in pending && c !in rest && IsDone(poll(pending[c]))
        invariant forall c :: c in pending && c !in rest && IsDone(poll(pending[c])) ==> c in completed
        decreases |rest|
      {
        var c :| c in rest;
        if IsDone(poll(pending[c])) {
          completed := completed + [c];
        }
        rest := rest - {c};
      }
    }

    /** One retirement of the first phase, after those of `done`. */
    method RetireOne(ghost v0: LoaderView, ghost done: seq<ChunkCoord>, c: ChunkCoord, poll: Handle -> HandleStatus, now: int,
                     ghost limit: int)
      returns (r: Outcome)
      requires Valid() && limit == settings.maxRetries && RetireRun(v0, View(), Ok, done, poll, now, limit)
      modifies this, queue, cache.Values
      ensures Valid() && cache == old(cache)
      ensures RetireRun(v0, View(), r, done + [c], poll, now, limit)
      ensures pending == old(pending) - {c} && loading == old(loading) - {c}
    {
      ghost var before := View();
      CompleteEachSnoc(v0, done, c, poll, now, limit);
      CompletionBounds(View(), c, poll, now, limit);
      r := ProcessLoadCompletion(c, poll, now);
      RetireRunStep(v0, before, View(), r, done, c, poll, now, limit);
    }

    /**
     * The second phase of a frame: dequeue and start loads while the cap
     * allows and the queue is not empty; `starts` records each dequeued item
     * with whether its start threw.
     */
    method StartQueued(catalog: set<string>, startThrows: seq<bool>, now: int) returns (r: Outcome, ghost starts: seq<(QueueItem, bool)>)
      requires Valid()
      modifies this, queue, cache.Values
      ensures Valid() && forall o :: o in cache.Values ==> o in old(cache.Values) || fresh(o)
      ensures StartRun(old(View()), View(), r, starts, startThrows, settings.maxConcurrentLoads, catalog, now, settings.maxRetries)
      ensures r.Ok? ==> queue.Count() == 0 || |loading| >= settings.maxConcurrentLoads
    {
      r := Ok;
      starts := [];
      var k := 0;
      ghost var v0 := View();
      ghost var cap, limit := settings.maxConcurrentLoads, settings.maxRetries;
      IssuedRefl(View());
      while |loading| < settings.maxConcurrentLoads && queue.Count() > 0
        invariant Valid() && forall o :: o in cache.Values ==> o in old(cache.Values) || fresh(o)
        invariant settings.maxConcurrentLoads == cap && settings.maxRetries == limit
        invariant k == |starts| && r == Ok
        invariant StartRun(v0, View(), r, starts, startThrows, cap, catalog, now, limit)
        decreases queue.Count() + (if k < |startThrows| then |startThrows| - k else 0)
      {
        var throws := ThrowsAt(startThrows, k);
        k := k + 1;
        ghost var removed;
        r, removed := StartOne(v0, starts, startThrows, throws, catalog, now, cap, limit);
        starts := starts + [(removed, throws)];
        if r.KeyNotFound? {
          return;
        }
      }
    }

    /** One start of the second phase, after those of `starts`: dequeues an item of least distance and starts it. */
    method StartOne(ghost v0: LoaderView, ghost starts: seq<(QueueItem, bool)>, ghost startThrows: seq<bool>, throws: bool,
                    catalog: set<string>, now: int, ghost cap: int, ghost limit: int)
      returns (r: Outcome, ghost removed: QueueItem)
      requires Valid() && cap == settings.maxConcurrentLoads && limit == settings.maxRetries
      requires queue.Count() > 0 && |loading| < cap && throws == ThrowsAt(startThrows, |starts|)
      requires StartRun(v0, View(), Ok, starts, startThrows, cap, catalog, now, limit)
      modifies this, queue, cache.Values
      ensures Valid() && forall o :: o in cache.Values ==> o in old(cache.Values) || fresh(o)
      ensures StartRun(v0, View(), r, starts + [(removed, throws)], startThrows, cap, catalog, now, limit)
      ensures queue.Count() <= old(queue.Count()) - 1 + (if throws then 1 else 0)
    {
      ghost var before := View();
      var next;
      next, removed := DequeueNext();
      ghost var mid := View();
      r := StartLoad(next, catalog, throws, now);
      StartOneStep(v0, before, mid, View(), r, starts, removed, throws, startThrows, cap, catalog, now, limit);
    }

    /** Takes an item of least distance off the queue. */
    method DequeueNext() returns (next: ChunkCoord, ghost item: QueueItem)
      requires Valid() && queue.Count() > 0
      modifies queue
      ensures Valid() && cache == old(cache)
      ensures next == item.coord && QueueMinimum(item, old(View()).queued)
      ensures View() == old(View()).(queued := old(View()).queued - multiset{item})
    {
      var r;
      r, item := queue.Dequeue();
      next := r.value;
    }
}
}
