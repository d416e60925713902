/**
 * The per-frame driver. Each frame it recomputes the square of cells to
 * keep around the player, unloads the cells that left it, queues the cells
 * that entered it, lets the loader run, refreshes the detail level of the
 * loaded chunks and finally checks the memory budget.
 *
 * The streamer is modelled from the point its start-up has run: the grid,
 * loader and monitor exist. The player's position is a parameter (absent
 * when there is no player transform), and the Euclidean distance used as a
 * load priority is the parameter function `distance`.
 */
module WorldStreamers {
  import opened Wrappers
  import opened ChunkCoords
  import opened ChunkGrids
  import opened ChunkDatas
  import opened StreamerSettings
  import opened ChunkLoaders
  import opened LodControllers
  import opened MemoryBudgetMonitors
  import opened LoadQueues

  /** Queues each coordinate in turn, each by the enqueue rule. */
  function EnqueueEach(v: LoaderView, coords: seq<ChunkCoord>, priority: ChunkCoord -> real): (w: LoaderView)
    ensures w.(queued := v.queued) == v
    decreases |coords|
  {
    if |coords| == 0 then v
    else EnqueueEach(EnqueueLoadSpec(v, coords[0], priority(coords[0])), coords[1..], priority)
  }

  lemma {:induction false} EnqueueEachSnoc(v: LoaderView, cs: seq<ChunkCoord>, c: ChunkCoord, priority: ChunkCoord -> real)
    ensures EnqueueEach(v, cs + [c], priority) == EnqueueLoadSpec(EnqueueEach(v, cs, priority), c, priority(c))
    decreases |cs|
  {
    if |cs| == 0 {
      assert cs + [c] == [c];
    } else {
      assert (cs + [c])[1..] == cs[1..] + [c];
      EnqueueEachSnoc(EnqueueLoadSpec(v, cs[0], priority(cs[0])), cs[1..], c, priority);
    }
  }

  /** The load priority of a cell: the distance from the player to the cell's centre. */
  function PriorityFrom(distance: (Vec3, Vec3) -> real, player: Vec3, chunkSize: real): ChunkCoord -> real
  {
    c => distance(player, WorldCenter(c, chunkSize))
  }

  /**
   * The records after the detail pass has visited the cells in `visited`:
   * each visited Loaded record takes the level for its distance and is
   * stamped; every other record is as it was.
   */
  function LodPass(recs: map<ChunkCoord, ChunkRecord>, visited: set<ChunkCoord>, settings: SettingsValue,
                   grid: ChunkGrid, player: Vec3, now: int): (r: map<ChunkCoord, ChunkRecord>)
    requires ValidGrid(grid)
    ensures r.Keys == recs.Keys
    ensures forall c :: c in r && (c !in visited || recs[c].state != Loaded) ==> r[c] == recs[c]
    ensures forall c :: c in r && c in visited && recs[c].state == Loaded ==>
              r[c] == recs[c].(lod := GetLodLevel(settings, grid, player, c), lastAccessTicks := now)
  {
    map c | c in recs :: if c in visited && recs[c].state == Loaded
                         then recs[c].(lod := GetLodLevel(settings, grid, player, c), lastAccessTicks := now)
                         else recs[c]
  }

  /** The records of `v` after the detail pass has visited every one of them. */
  function LodView(v: LoaderView, settings: SettingsValue, grid: ChunkGrid, player: Vec3, now: int): (w: LoaderView)
    requires ValidGrid(grid)
    ensures w.(records := v.records) == v && w.records.Keys == v.records.Keys
  {
    v.(records := LodPass(v.records, v.records.Keys, settings, grid, player, now))
  }

  /**
   * How a frame ends from the loader's state `v`: the detail pass runs over
   * every record, then the total memory of the records is measured. Within
   * the budget nothing is evicted and `total` is that measurement; over it,
   * `order` lists the records by access time and `w` and `total` are what
   * the purge's scan over that order leaves, sparing the square of the
   * minimum protected radius around the player's cell.
   */
  ghost predicate Settled(v: LoaderView, w: LoaderView, total: int, order: seq<AccessEntry>,
                          settings: SettingsValue, grid: ChunkGrid, player: Vec3, now: int)
    requires ValidGrid(grid)
  {
    var lod := LodView(v, settings, grid, player, now);
    var measured := TotalMemory(lod.records);
    var budget := TruncateToInt(BudgetBytes(settings));
    if measured <= budget then w == lod && total == measured
    else
      var scan := PurgeScan(order, measured, budget, Neighbourhood(GetChunkCoord(grid, player), settings.minProtectedRadius));
      && IsAccessOrder(order, lod.records)
      && total == scan.1 && w == UnloadEach(lod, CoordsOf(scan.0))
  }

  /** Introduces `Settled` from the detail pass's result `lod`, its measured total and the budget. */
  lemma SettledIntro(v: LoaderView, lod: LoaderView, measured: int, budget: int, protect: set<ChunkCoord>, w: LoaderView, total: int, order: seq<AccessEntry>,
                     settings: SettingsValue, grid: ChunkGrid, player: Vec3, now: int)
    requires ValidGrid(grid) && measured == TotalMemory(lod.records) && budget == TruncateToInt(BudgetBytes(settings))
    requires lod == LodView(v, settings, grid, player, now)
    requires protect == Neighbourhood(GetChunkCoord(grid, player), settings.minProtectedRadius)
    requires measured <= budget ==> w == lod && total == measured
    requires measured > budget ==>
               var scan := PurgeScan(order, measured, budget, protect);
               IsAccessOrder(order, lod.records) && total == scan.1 && w == UnloadEach(lod, CoordsOf(scan.0))
    ensures Settled(v, w, total, order, settings, grid, player, now)
  {
  }

  /**
   * The loading half of a frame with the player at `player`, taking the
   * loader from `v` to `w` and the monitor's total from `total0` to `total`:
   * the loader's frame runs over `done` and `starts` under the settings' cap
   * and retry limit; a KeyNotFound it raises leaves the loader there and the
   * total untouched, and otherwise the frame ends as `Settled` says.
   */
  ghost predicate FrameRun(v: LoaderView, w: LoaderView, r: Outcome, total0: int, total: int, done: seq<ChunkCoord>,
                           starts: seq<(QueueItem, bool)>, purgeOrder: seq<AccessEntry>, poll: Handle -> HandleStatus,
                           catalog: set<string>, startThrows: seq<bool>, now: int, settings: SettingsValue, grid: ChunkGrid, player: Vec3)
    requires ValidGrid(grid)
  {
    && FrameOrder(v, done, starts, poll, settings.maxConcurrentLoads, catalog, startThrows, now, settings.maxRetries)
    && var frame := FrameSpec(v, done, starts, poll, catalog, now, settings.maxRetries);
       && r == frame.1
       && (r.KeyNotFound? ==> w == frame.0 && total == total0)
       && (r.Ok? ==> Settled(frame.0, w, total, purgeOrder, settings, grid, player, now))
  }

  class WorldStreamer {
    const settings: WorldStreamerSettings
    const grid: ChunkGrid
    const loader: ChunkLoader
    const monitor: MemoryBudgetMonitor
    /** The cells the streamer has asked for: its notion of what is loaded. */
    var currentlyLoaded: set<ChunkCoord>
    var targetChunks: set<ChunkCoord>

    ghost predicate Valid()
      reads this, loader, loader.queue, monitor
    {
      && loader.Valid() && ValidGrid(grid)
      && monitor.loader == loader && monitor.settings == settings && loader.settings == settings
    }

    /** Start-up: a grid of the configured chunk size, a loader, and a monitor over that loader. */
    constructor(settings: WorldStreamerSettings)
      requires settings.chunkSize > 0.0
      ensures Valid() && this.settings == settings && grid == ChunkGrid(settings.chunkSize)
      ensures fresh(loader) && fresh(loader.queue) && fresh(monitor)
      ensures loader.settings == settings
      ensures loader.View() == LoaderView(map[], map[], {}, map[], {}, multiset{}, 0, [])
      ensures monitor.totalMemoryUsage == 0 && currentlyLoaded == {} && targetChunks == {}
    {
      this.settings := settings;
      grid := ChunkGrid(settings.chunkSize);
      var l := new ChunkLoader(settings);
      loader := l;
      monitor := new MemoryBudgetMonitor(settings, l);
      currentlyLoaded := {};
      targetChunks := {};
    }

    /** The number of cells asked for, whatever their load state. */
    function LoadedChunkCount(): nat
      reads this
    {
      |currentlyLoaded|
    }

    /**
     * One frame. Without a player nothing happens. Otherwise the tracked set
     * becomes the square of the load radius around the player's cell; the
     * loader first sees every leaving cell unloaded and only then every
     * entering cell queued (`queuedView`). The loader's frame then runs over
     * `done` and `starts`; a KeyNotFound it raises ends the frame before the
     * detail pass and the memory check, which otherwise settle the records
     * as `Settled` says, the purge walking `purgeOrder`.
     */
    method Update(player: Option<Vec3>, distance: (Vec3, Vec3) -> real, catalog: set<string>,
                  poll: Handle -> HandleStatus, startThrows: seq<bool>, now: int)
      returns (r: Outcome, ghost unloadOrder: seq<ChunkCoord>, ghost loadOrder: seq<ChunkCoord>, ghost queuedView: LoaderView,
               ghost done: seq<ChunkCoord>, ghost starts: seq<(QueueItem, bool)>, ghost purgeOrder: seq<AccessEntry>)
      requires Valid()
      modifies this, loader, loader.queue, loader.cache.Values, monitor
      ensures Valid()
      ensures player.None? ==>
                && r == Ok && currentlyLoaded == old(currentlyLoaded) && targetChunks == old(targetChunks)
                && loader.View() == old(loader.View()) && monitor.totalMemoryUsage == old(monitor.totalMemoryUsage)
      ensures player.Some? ==>
                && targetChunks == Neighbourhood(GetChunkCoord(grid, player.value), old(settings.loadRadius))
                && currentlyLoaded == targetChunks
                && (forall c :: c in unloadOrder <==> c in old(currentlyLoaded) && c !in targetChunks)
                && (forall c :: c in loadOrder <==> c in targetChunks && c !in old(currentlyLoaded))
                && queuedView == EnqueueEach(UnloadEach(old(loader.View()), unloadOrder), loadOrder,
                                             PriorityFrom(distance, player.value, old(settings.chunkSize)))
      ensures player.Some? ==>
                FrameRun(queuedView, loader.View(), r, old(monitor.totalMemoryUsage), monitor.totalMemoryUsage, done, starts, purgeOrder,
                         poll, catalog, startThrows, now, old(settings.View()), grid, player.value)
    {
      done, starts, purgeOrder := [], [], [];
      if player.None? {
        return Ok, [], [], loader.View(), done, starts, purgeOrder;
      }
      unloadOrder, loadOrder := Track(player.value, distance);
      queuedView := loader.View();
      r, done, starts, purgeOrder := LoadAndSettle(player.value, catalog, poll, startThrows, now);
    }

    /** The loading half of a frame: the loader's frame, then, unless it raised KeyNotFound, the settling. */
    method LoadAndSettle(player: Vec3, catalog: set<string>, poll: Handle -> HandleStatus, startThrows: seq<bool>, now: int)
      returns (r: Outcome, ghost done: seq<ChunkCoord>, ghost starts: seq<(QueueItem, bool)>, ghost purgeOrder: seq<AccessEntry>)
      requires Valid()
      modifies loader, loader.queue, loader.cache.Values, monitor
      ensures Valid()
      ensures FrameRun(old(loader.View()), loader.View(), r, old(monitor.totalMemoryUsage), monitor.totalMemoryUsage, done, starts, purgeOrder,
                       poll, catalog, startThrows, now, old(settings.View()), grid, player)
    {
      purgeOrder := [];
      r, done, starts := loader.Update(catalog, poll, startThrows, now);
      if r.KeyNotFound? {
        return;
      }
      purgeOrder := Settle(player, now);
    }

    /** The end of a frame: the detail pass, the memory measurement and the purge when over budget. */
    method Settle(player: Vec3, now: int) returns (ghost purgeOrder: seq<AccessEntry>)
      requires Valid()
      modifies loader, loader.cache.Values, monitor
      ensures Valid()
      ensures Settled(old(loader.View()), loader.View(), monitor.totalMemoryUsage, purgeOrder, settings.View(), grid, player, now)
    {
      ghost var v := loader.View();
      ghost var st := settings.View();
      LodAndMeasure(player, now);
      ghost var lod := loader.View();
      ghost var measured := monitor.totalMemoryUsage;
      ghost var budget := monitor.MemoryBudgetBytes();
      assert monitor.IsBudgetExceeded() <==> measured > budget;
      ghost var protect := Neighbourhood(GetChunkCoord(grid, player), st.minProtectedRadius);
      purgeOrder := monitor.PurgeIfNeeded(player, grid);
      SettledIntro(v, lod, measured, budget, protect, loader.View(), monitor.totalMemoryUsage, purgeOrder, st, grid, player, now);
    }

    /** The detail pass, then the monitor's measurement of the records it leaves. */
    method LodAndMeasure(player: Vec3, now: int)
      requires Valid()
      modifies loader.cache.Values, monitor
      ensures Valid() && loader.cache == old(loader.cache)
      ensures loader.View() == LodView(old(loader.View()), settings.View(), grid, player, now)
      ensures monitor.totalMemoryUsage == TotalMemory(loader.View().records)
    {
      UpdateLod(player, now);
      ghost var lod := loader.View();
      monitor.Update();
      assert loader.View() == lod;
    }

    /** The tracking half of a frame: the new target square, then the unloads, then the enqueues. */
    method Track(pos: Vec3, distance: (Vec3, Vec3) -> real) returns (ghost unloadOrder: seq<ChunkCoord>, ghost loadOrder: seq<ChunkCoord>)
      requires Valid()
      modifies this, loader, loader.queue, loader.cache.Values
      ensures Valid()
      ensures forall o :: o in loader.cache.Values ==> o in old(loader.cache.Values)
      ensures targetChunks == Neighbourhood(GetChunkCoord(grid, pos), settings.loadRadius)
      ensures currentlyLoaded == targetChunks
      ensures forall c :: c in unloadOrder <==> c in old(currentlyLoaded) && c !in targetChunks
      ensures forall c :: c in loadOrder <==> c in targetChunks && c !in old(currentlyLoaded)
      ensures loader.View() == EnqueueEach(UnloadEach(old(loader.View()), unloadOrder), loadOrder,
                                           PriorityFrom(distance, pos, settings.chunkSize))
    {
      var priority := PriorityFrom(distance, pos, settings.chunkSize);
      var target := GetSurroundingChunks(grid, pos, settings.loadRadius);
      SetTarget(target);
      var diff := GetChunkDifference(currentlyLoaded, target);
      unloadOrder := UnloadLeaving(diff.1);
      ghost var unloaded := loader.View();
      loadOrder := EnqueueEntering(diff.0, priority);
      assert loader.View() == EnqueueEach(unloaded, loadOrder, priority);
      GetChunkDifferenceReconstructs(old(currentlyLoaded), target);
    }

    /** Records the square the player's chunk now asks for. */
    method SetTarget(target: set<ChunkCoord>)
      requires Valid()
      modifies this
      ensures Valid() && targetChunks == target
      ensures currentlyLoaded == old(currentlyLoaded)
      ensures loader.View() == old(loader.View())
    {
      targetChunks := target;
    }

    /** Unloads every cell of `toUnload`; the cells leave the tracked set. */
    method UnloadLeaving(toUnload: set<ChunkCoord>) returns (ghost order: seq<ChunkCoord>)
      requires Valid()
      modifies this, loader, loader.cache.Values
      ensures Valid() && targetChunks == old(targetChunks)
      ensures forall o :: o in loader.cache.Values ==> o in old(loader.cache.Values)
      ensures currentlyLoaded == old(currentlyLoaded) - toUnload
      ensures forall c :: c in order <==> c in toUnload
      ensures loader.View() == UnloadEach(old(loader.View()), order)
    {
      order := [];
      var rest := toUnload;
      ghost var v0 := loader.View();
      while rest != {}
        invariant loader.Valid() && rest <= toUnload
        invariant forall o :: o in loader.cache.Values ==> o in old(loader.cache.Values)
        invariant forall c :: c in order <==> c in toUnload && c !in rest
        invariant loader.View() == UnloadEach(v0, order)
        modifies loader, loader.cache.Values
        decreases |rest|
      {
        var c :| c in rest;
        loader.Unload(c);
        UnloadEachSnoc(v0, order, c);
        order := order + [c];
        rest := rest - {c};
      }
      currentlyLoaded := currentlyLoaded - toUnload;
    }

    /** Queues every cell of `toLoad` at its priority, adding each to the tracked set. */
    method EnqueueEntering(toLoad: set<ChunkCoord>, priority: ChunkCoord -> real) returns (ghost order: seq<ChunkCoord>)
      requires Valid()
      modifies this, loader.queue
      ensures Valid() && targetChunks == old(targetChunks)
      ensures currentlyLoaded == old(currentlyLoaded) + toLoad
      ensures forall c :: c in order <==> c in toLoad
      ensures loader.View() == EnqueueEach(old(loader.View()), order, priority)
    {
      order := [];
      var rest := toLoad;
      ghost var v0 := loader.View();
      while rest != {}
        invariant loader.Valid() && rest <= toLoad
        invariant forall c :: c in order <==> c in toLoad && c !in rest
        invariant loader.View() == EnqueueEach(v0, order, priority)
        modifies loader.queue
        decreases |rest|
      {
        var c :| c in rest;
        loader.EnqueueLoad(c, priority(c));
        EnqueueEachSnoc(v0, order, c, priority);
        order := order + [c];
        rest := rest - {c};
      }
      currentlyLoaded := currentlyLoaded + toLoad;
    }

    /** Writes the detail level of one cached record. */
    method SetLod(coord: ChunkCoord, lod: LodLevel)
      requires Valid() && coord in loader.cache
      modifies loader.cache[coord]
      ensures Valid() && loader.cache == old(loader.cache)
      ensures loader.View() == old(loader.View()).(records := old(loader.Records())[coord := old(loader.Records())[coord].(lod := lod)])
    {
      loader.cache[coord].currentLod := lod;
      loader.RecordsAfterWrite(coord);
    }

    /**
     * The detail pass: every Loaded record takes the level for its distance
     * (written only when it differs) and is stamped as accessed; other
     * records are skipped.
     */
    method UpdateLod(player: Vec3, now: int)
      requires Valid()
      modifies loader.cache.Values
      ensures Valid() && loader.cache == old(loader.cache)
      ensures loader.View() == LodView(old(loader.View()), settings.View(), grid, player, now)
    {
      var rest := loader.cache.Keys;
      ghost var keys := rest;
      ghost var recs := loader.Records();
      assert recs.Keys == keys;
      ghost var v0 := loader.View();
      ghost var s := settings.View();
      while rest != {}
        invariant Valid() && loader.cache == old(loader.cache) && rest <= keys && settings.View() == s
        invariant loader.View() == v0.(records := LodPass(recs, keys - rest, s, grid, player, now))
        decreases |rest|
      {
        var c :| c in rest;
        ghost var done := keys - rest;
        VisitNext(c, player, now, v0, recs, done, s);
        SetStep(keys, rest, c);
        rest := rest - {c};
      }
      assert keys - rest == keys;
    }

    /** One more cell of the detail pass: the records become those of the pass over one more cell. */
    method VisitNext(c: ChunkCoord, player: Vec3, now: int, ghost v0: LoaderView, ghost recs: map<ChunkCoord, ChunkRecord>,
                     ghost done: set<ChunkCoord>, ghost s: SettingsValue)
      requires Valid() && s == settings.View() && c in loader.cache && c in recs && c !in done
      requires loader.View() == v0.(records := LodPass(recs, done, s, grid, player, now))
      modifies loader.cache.Values
      ensures Valid() && loader.cache == old(loader.cache)
      ensures loader.View() == v0.(records := LodPass(recs, done + {c}, s, grid, player, now))
    {
      LodPassStep(recs, done, c, s, grid, player, now);
      VisitLod(c, player, now);
    }

    /** The detail pass on one cached record. */
    method VisitLod(c: ChunkCoord, player: Vec3, now: int)
      requires Valid() && c in loader.cache
      modifies loader.cache.Values
      ensures Valid() && loader.cache == old(loader.cache)
      ensures var recs := old(loader.Records());
              loader.View() == old(loader.View()).(records :=
                if recs[c].state == Loaded
                then recs[c := recs[c].(lod := GetLodLevel(settings.View(), grid, player, c), lastAccessTicks := now)]
                else recs)
    {
      var d := loader.cache[c];
      if d.state == Loaded {
        var lod := GetLodLevel(settings.View(), grid, player, d.coord);
        if d.currentLod != lod {
          SetLod(c, lod);
        }
        loader.UpdateChunkAccess(d.coord, now);
      }
    }

    /** Unloads everything the loader holds and forgets the tracked and target cells. */
    method Reset() returns (ghost order: seq<ChunkCoord>)
      requires Valid()
      modifies this, loader, loader.queue, loader.cache.Values
      ensures Valid() && currentlyLoaded == {} && targetChunks == {}
      ensures loader.View() == UnloadEach(old(loader.View()), order).(pending := map[], loading := {}, retry := map[], missing := {}, queued := multiset{})
      ensures loader.Records() == map[]
    {
      order := loader.UnloadAll();
      UnloadEachRecords(old(loader.View()), order);
      currentlyLoaded := {};
      targetChunks := {};
    }
  }

  /** Moving one element from the unvisited set adds it to the visited ones. */
  lemma SetStep<T>(all: set<T>, rest: set<T>, x: T)
    requires x in rest
    ensures all - (rest - {x}) == (all - rest) + (if x in all then {x} else {})
  {
  }

  lemma LodPassStep(recs: map<ChunkCoord, ChunkRecord>, visited: set<ChunkCoord>, c: ChunkCoord, settings: SettingsValue,
                    grid: ChunkGrid, player: Vec3, now: int)
    requires ValidGrid(grid) && c in recs && c !in visited
    ensures var before := LodPass(recs, visited, settings, grid, player, now);
            LodPass(recs, visited + {c}, settings, grid, player, now)
            == if recs[c].state == Loaded
               then before[c := recs[c].(lod := GetLodLevel(settings, grid, player, c), lastAccessTicks := now)]
               else before
  {
  }

  /** Right after a frame with a player, the count is the number of cells in the square of the load radius. */
  lemma LoadedChunkCountIsSquareSize(ws: WorldStreamer, center: ChunkCoord, radius: int)
    requires ws.currentlyLoaded == Neighbourhood(center, radius)
    ensures ws.LoadedChunkCount() == if radius < 0 then 0 else (2 * radius + 1) * (2 * radius + 1)
  {
    NeighbourhoodSize(center, radius);
  }
}
