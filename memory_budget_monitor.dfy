/**
 * The memory monitor: it caches the loader's total memory estimate and,
 * when that cached figure exceeds the budget, asks the loader to purge.
 */
module MemoryBudgetMonitors {
  import opened ChunkCoords
  import opened ChunkGrids
  import opened StreamerSettings
  import opened ChunkLoaders
  import opened Wrappers

  class MemoryBudgetMonitor {
    const settings: WorldStreamerSettings
    const loader: ChunkLoader
    var totalMemoryUsage: int

    ghost predicate Valid()
      reads this, loader, loader.queue
    {
      loader.Valid()
    }

    /** A new monitor has not measured anything yet: its total is 0. */
    constructor(settings: WorldStreamerSettings, loader: ChunkLoader)
      ensures this.settings == settings && this.loader == loader
      ensures totalMemoryUsage == 0
    {
      this.settings := settings;
      this.loader := loader;
      totalMemoryUsage := 0;
    }

    /** The settings' budget, truncated to whole bytes. */
    function MemoryBudgetBytes(): (b: int)
      reads settings
      ensures b == TruncateToInt(BudgetBytes(settings.View()))
    {
      TruncateToInt(settings.MemoryBudgetBytes())
    }

    /** Strictly over budget, judged on the figure last measured rather than on the loader's current records. */
    predicate IsBudgetExceeded()
      reads this, settings
    {
      totalMemoryUsage > MemoryBudgetBytes()
    }

    /** Measures the loader's records afresh. */
    method Update()
      requires Valid()
      modifies this
      ensures Valid()
      ensures totalMemoryUsage == TotalMemory(loader.Records())
      ensures IsBudgetExceeded() <==> TotalMemory(loader.Records()) > MemoryBudgetBytes()
    {
      totalMemoryUsage := loader.CalculateTotalMemory();
    }

    /**
     * Does nothing while the measured figure is within budget; otherwise
     * purges around the player's cell, sparing the minimum protected radius,
     * and keeps the total the purge reports.
     */
    method PurgeIfNeeded(playerPosition: Vec3, grid: ChunkGrid) returns (ghost order: seq<AccessEntry>)
      requires Valid() && ValidGrid(grid)
      modifies this, loader, loader.cache.Values
      ensures Valid()
      ensures !old(IsBudgetExceeded()) ==>
                totalMemoryUsage == old(totalMemoryUsage) && loader.View() == old(loader.View())
      ensures old(IsBudgetExceeded()) ==>
                var recs := old(loader.Records());
                var protect := Neighbourhood(GetChunkCoord(grid, playerPosition), settings.minProtectedRadius);
                var scan := PurgeScan(order, TotalMemory(recs), MemoryBudgetBytes(), protect);
                && (TotalMemory(recs) > MemoryBudgetBytes() ==> IsAccessOrder(order, recs))
                && totalMemoryUsage == scan.1
                && loader.View() == UnloadEach(old(loader.View()), CoordsOf(scan.0))
    {
      if !IsBudgetExceeded() {
        order := [];
        return;
      }
      var playerChunk := GetChunkCoord(grid, playerPosition);
      totalMemoryUsage, order := loader.PurgeExcessMemory(MemoryBudgetBytes(), settings.minProtectedRadius, playerChunk);
    }
  }
}
