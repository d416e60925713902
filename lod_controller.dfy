/**
 * Level-of-detail selection: the detail level of a chunk follows from the
 * Chebyshev distance, in cells, between the player's cell and the chunk.
 */
module LodControllers {
  import opened ChunkCoords
  import opened ChunkGrids
  import opened ChunkDatas
  import opened StreamerSettings

  /** The two-threshold rule: within the load radius High, then within the medium radius Medium, beyond both Low. */
  function LevelForDistance(d: int, loadRadius: int, lodMediumRadius: int): (lod: LodLevel)
    ensures lod == High <==> d <= loadRadius
    ensures lod == Medium <==> loadRadius < d <= lodMediumRadius
    ensures lod == Low <==> loadRadius < d && lodMediumRadius < d
  {
    if d <= loadRadius then High
    else if d <= lodMediumRadius then Medium
    else Low
  }

  /** The level for `coord` seen from a player at `playerPosition`. */
  function GetLodLevel(settings: SettingsValue, grid: ChunkGrid, playerPosition: Vec3, coord: ChunkCoord): (lod: LodLevel)
    requires ValidGrid(grid)
    ensures var d := Distance(GetChunkCoord(grid, playerPosition), coord);
      && (lod == High <==> d <= settings.loadRadius)
      && (lod == Medium <==> settings.loadRadius < d <= settings.lodMediumRadius)
      && (lod == Low <==> settings.loadRadius < d && settings.lodMediumRadius < d)
  {
    var playerChunk := GetChunkCoord(grid, playerPosition);
    LevelForDistance(Distance(playerChunk, coord), settings.loadRadius, settings.lodMediumRadius)
  }

  /**
   * The level never gets finer as the distance grows, whatever the radii:
   * with the load radius above the medium radius, Medium is simply never chosen.
   */
  lemma LevelCoarsensWithDistance(d1: int, d2: int, loadRadius: int, lodMediumRadius: int)
    requires d1 <= d2
    ensures LodValue(LevelForDistance(d1, loadRadius, lodMediumRadius)) <= LodValue(LevelForDistance(d2, loadRadius, lodMediumRadius))
  {
  }

  /** The low radius is never consulted: changing it changes no level. */
  lemma LowRadiusNotConsulted(settings: SettingsValue, lodLowRadius: int, grid: ChunkGrid, playerPosition: Vec3, coord: ChunkCoord)
    requires ValidGrid(grid)
    ensures GetLodLevel(settings.(lodLowRadius := lodLowRadius), grid, playerPosition, coord)
            == GetLodLevel(settings, grid, playerPosition, coord)
  {
  }

  /** Every chunk the streamer asks to load (within the load radius of the player's cell) is at High detail. */
  lemma LoadedSquareIsHigh(settings: SettingsValue, grid: ChunkGrid, playerPosition: Vec3, coord: ChunkCoord)
    requires ValidGrid(grid)
    requires coord in Neighbourhood(GetChunkCoord(grid, playerPosition), settings.loadRadius)
    ensures GetLodLevel(settings, grid, playerPosition, coord) == High
  {
    NeighbourhoodIsDistanceBall(GetChunkCoord(grid, playerPosition), settings.loadRadius, coord);
  }
}
