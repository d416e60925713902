/** The per-chunk record the loader keeps in its cache, updated in place. */
module ChunkDatas {
  import opened Wrappers
  import opened ChunkCoords

  datatype LoadState = Unloaded | Loading | Loaded | Unloading | Failed

  /** Detail levels; the enum's numeric values order them from finest to coarsest. */
  datatype LodLevel = High | Medium | Low

  function LodValue(l: LodLevel): (v: int)
    ensures 0 <= v <= 2
  {
    match l
    case High => 0
    case Medium => 1
    case Low => 2
  }

  /** The numeric values are distinct and order High < Medium < Low. */
  lemma LodValueOrder()
    ensures LodValue(High) < LodValue(Medium) < LodValue(Low)
    ensures forall a, b :: LodValue(a) == LodValue(b) ==> a == b
  {
  }

  /** An instantiated chunk prefab, known to the model only by identity. */
  datatype Asset = Asset(id: nat)

  /** The value held by a ChunkData object apart from its fixed coordinate. */
  datatype ChunkRecord = ChunkRecord(
    state: LoadState,
    lod: LodLevel,
    lastAccessTicks: int,
    estimatedMemoryBytes: int,
    root: Option<Asset>)

  /** What a freshly constructed ChunkData holds at clock reading `now`. */
  function NewRecord(now: int): ChunkRecord
  {
    ChunkRecord(Unloaded, Low, now, 0, None)
  }

  class ChunkData {
    const coord: ChunkCoord
    var state: LoadState
    var currentLod: LodLevel
    var lastAccessTicks: int
    var estimatedMemoryBytes: int
    var rootObject: Option<Asset>

    function View(): ChunkRecord
      reads this
    {
      ChunkRecord(state, currentLod, lastAccessTicks, estimatedMemoryBytes, rootObject)
    }

    /** A new record is Unloaded, at Low detail, stamped `now`, with no memory and no root. */
    constructor(coord: ChunkCoord, now: int)
      ensures this.coord == coord
      ensures state == Unloaded && currentLod == Low && lastAccessTicks == now
      ensures estimatedMemoryBytes == 0 && rootObject == None
      ensures View() == NewRecord(now)
    {
      this.coord := coord;
      state := Unloaded;
      currentLod := Low;
      lastAccessTicks := now;
      estimatedMemoryBytes := 0;
      rootObject := None;
    }

    /** Stamps the clock reading; every other field keeps its value. */
    method UpdateLastAccess(now: int)
      modifies this
      ensures View() == old(View()).(lastAccessTicks := now)
    {
      lastAccessTicks := now;
    }
  }
}
