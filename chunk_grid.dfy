/**
 * The grid that maps world positions to chunk cells: which cell a point
 * falls into, the square neighbourhood of cells around a point, and the
 * difference between two sets of cells.
 */
module ChunkGrids {
  import opened ChunkCoords

  /** A grid of square chunks `chunkSize` world units wide. */
  datatype ChunkGrid = ChunkGrid(chunkSize: real)

  /** The grid's chunk size comes from validated settings, which keep it at least 1. */
  predicate ValidGrid(g: ChunkGrid) { g.chunkSize > 0.0 }

  /** Floor of x / chunkSize on each planar axis (floating rounding is not modelled). */
  function GetChunkCoord(g: ChunkGrid, p: Vec3): (c: ChunkCoord)
    requires ValidGrid(g)
    ensures c.x as real * g.chunkSize <= p.x < (c.x + 1) as real * g.chunkSize
    ensures c.z as real * g.chunkSize <= p.z < (c.z + 1) as real * g.chunkSize
  {
    FloorCell(p.x, g.chunkSize, (p.x / g.chunkSize).Floor);
    FloorCell(p.z, g.chunkSize, (p.z / g.chunkSize).Floor);
    ChunkCoord((p.x / g.chunkSize).Floor, (p.z / g.chunkSize).Floor)
  }

  lemma MulStrict(a: real, b: real, s: real)
    requires s > 0.0 && a < b
    ensures a * s < b * s
  {
    assert b * s - a * s == (b - a) * s;
  }

  lemma FloorCell(v: real, s: real, k: int)
    requires s > 0.0
    ensures (v / s).Floor == k <==> k as real * s <= v < (k + 1) as real * s
  {
    var q := v / s;
    var f := q.Floor;
    var lo, hi := k as real, (k + 1) as real;
    assert f as real <= q < f as real + 1.0;
    assert v == q * s;
    if f == k {
      if q > lo { MulStrict(lo, q, s); }
      MulStrict(q, hi, s);
    }
    if lo * s <= v < hi * s {
      if q < lo { MulStrict(q, lo, s); }
      if q >= hi {
        if q > hi { MulStrict(hi, q, s); }
      }
      assert lo <= q < hi;
      assert k < f + 1;
      assert f < k + 1;
    }
  }

  /** A point lies in cell c exactly when it is inside c's world box (min inclusive, max exclusive). */
  lemma GetChunkCoordIsContainingCell(g: ChunkGrid, p: Vec3, c: ChunkCoord)
    requires ValidGrid(g)
    ensures GetChunkCoord(g, p) == c <==>
      WorldMin(c, g.chunkSize).x <= p.x < WorldMax(c, g.chunkSize).x &&
      WorldMin(c, g.chunkSize).z <= p.z < WorldMax(c, g.chunkSize).z
  {
    FloorCell(p.x, g.chunkSize, c.x);
    FloorCell(p.z, g.chunkSize, c.z);
  }

  lemma GetChunkCoordExamples()
    ensures GetChunkCoord(ChunkGrid(100.0), Vec3(150.0, 0.0, 250.0)) == ChunkCoord(1, 2)
    ensures GetChunkCoord(ChunkGrid(100.0), Vec3(-50.0, 0.0, -150.0)) == ChunkCoord(-1, -2)
    ensures GetChunkCoord(ChunkGrid(100.0), Vec3(100.0, 0.0, 100.0)) == ChunkCoord(1, 1)
  {
    GetChunkCoordIsContainingCell(ChunkGrid(100.0), Vec3(150.0, 0.0, 250.0), ChunkCoord(1, 2));
    GetChunkCoordIsContainingCell(ChunkGrid(100.0), Vec3(-50.0, 0.0, -150.0), ChunkCoord(-1, -2));
    GetChunkCoordIsContainingCell(ChunkGrid(100.0), Vec3(100.0, 0.0, 100.0), ChunkCoord(1, 1));
  }

  function GetChunkId(g: ChunkGrid, p: Vec3): string
    requires ValidGrid(g)
  {
    ToChunkId(GetChunkCoord(g, p))
  }

  /** Two positions share a chunk id exactly when they share a cell. */
  lemma GetChunkIdSameIffSameCell(g: ChunkGrid, p: Vec3, q: Vec3)
    requires ValidGrid(g)
    ensures GetChunkId(g, p) == GetChunkId(g, q) <==> GetChunkCoord(g, p) == GetChunkCoord(g, q)
  {
    if GetChunkId(g, p) == GetChunkId(g, q) {
      ToChunkIdInjective(GetChunkCoord(g, p), GetChunkCoord(g, q));
    }
  }

  // ---------------------------------------------------------------------
  // Neighbourhoods
  // ---------------------------------------------------------------------

  /** Cells (x, z) with x0 <= x <= x1 and z0 <= z <= z1. */
  function Block(x0: int, x1: int, z0: int, z1: int): set<ChunkCoord>
  {
    set x: int, z: int | x0 <= x <= x1 && z0 <= z <= z1 :: ChunkCoord(x, z)
  }

  /** The cells within Chebyshev distance r of `center`. */
  function Neighbourhood(center: ChunkCoord, r: int): set<ChunkCoord>
  {
    Block(center.x - r, center.x + r, center.z - r, center.z + r)
  }

  lemma NeighbourhoodIsDistanceBall(center: ChunkCoord, r: int, c: ChunkCoord)
    ensures c in Neighbourhood(center, r) <==> Distance(center, c) <= r
  {
    if Distance(center, c) <= r {
      assert c == ChunkCoord(c.x, c.z);
    }
  }

  function Width(lo: int, hi: int): nat { if hi < lo then 0 else hi - lo + 1 }

  lemma {:induction false} RowSize(x: int, z0: int, z1: int)
    ensures |Block(x, x, z0, z1)| == Width(z0, z1)
    decreases z1 - z0
  {
    if z1 < z0 {
      assert Block(x, x, z0, z1) == {};
    } else {
      RowSize(x, z0, z1 - 1);
      assert Block(x, x, z0, z1) == Block(x, x, z0, z1 - 1) + {ChunkCoord(x, z1)};
      assert ChunkCoord(x, z1) !in Block(x, x, z0, z1 - 1);
    }
  }

  lemma {:induction false} BlockSize(x0: int, x1: int, z0: int, z1: int)
    ensures |Block(x0, x1, z0, z1)| == Width(x0, x1) * Width(z0, z1)
    decreases x1 - x0
  {
    if x1 < x0 {
      assert Block(x0, x1, z0, z1) == {};
    } else {
      var left, row := Block(x0, x1 - 1, z0, z1), Block(x1, x1, z0, z1);
      BlockSize(x0, x1 - 1, z0, z1);
      RowSize(x1, z0, z1);
      assert Block(x0, x1, z0, z1) == left + row by {
        forall c | c in Block(x0, x1, z0, z1) ensures c in left + row {
          if c.x < x1 { assert c in left; } else { assert c in row; }
        }
      }
      assert left !! row;
      WidthStep(x0, x1, Width(z0, z1));
    }
  }

  lemma WidthStep(x0: int, x1: int, w: nat)
    requires x0 <= x1
    ensures Width(x0, x1) * w == Width(x0, x1 - 1) * w + w
  {
    assert Width(x0, x1) == Width(x0, x1 - 1) + 1;
  }

  /** A neighbourhood of radius r >= 0 is a (2r+1) x (2r+1) square; a negative radius gives no cells. */
  lemma NeighbourhoodSize(center: ChunkCoord, r: int)
    ensures r >= 0 ==> |Neighbourhood(center, r)| == (2 * r + 1) * (2 * r + 1)
    ensures r < 0 ==> Neighbourhood(center, r) == {}
  {
    BlockSize(center.x - r, center.x + r, center.z - r, center.z + r);
  }

  /** Every cell of the square of radius `radius` around `center`, added row by row in nested loops. */
  method SquareAround(center: ChunkCoord, radius: int) returns (result: set<ChunkCoord>)
    ensures result == Neighbourhood(center, radius)
  {
    result := {};
    var x := center.x - radius;
    while x <= center.x + radius
      invariant radius >= 0 ==> center.x - radius <= x <= center.x + radius + 1
      invariant result == Block(center.x - radius, x - 1, center.z - radius, center.z + radius)
      decreases center.x + radius - x
    {
      var z := center.z - radius;
      while z <= center.z + radius
        invariant center.z - radius <= z <= center.z + radius + 1
        invariant result == Block(center.x - radius, x - 1, center.z - radius, center.z + radius)
                             + Block(x, x, center.z - radius, z - 1)
        decreases center.z + radius - z
      {
        result := result + {ChunkCoord(x, z)};
        z := z + 1;
      }
      x := x + 1;
    }
  }

  /** The cells within `radius` of the cell holding `p`. */
  method GetSurroundingChunks(g: ChunkGrid, p: Vec3, radius: int) returns (result: set<ChunkCoord>)
    requires ValidGrid(g)
    ensures result == Neighbourhood(GetChunkCoord(g, p), radius)
    ensures forall c :: c in result <==> Distance(GetChunkCoord(g, p), c) <= radius
  {
    result := SquareAround(GetChunkCoord(g, p), radius);
    forall c ensures c in result <==> Distance(GetChunkCoord(g, p), c) <= radius {
      NeighbourhoodIsDistanceBall(GetChunkCoord(g, p), radius, c);
    }
  }

  /** Cells to start loading and cells to release when the wanted set moves from `before` to `after`. */
  function GetChunkDifference(before: set<ChunkCoord>, after: set<ChunkCoord>)
    : (d: (set<ChunkCoord>, set<ChunkCoord>))
    ensures d.0 !! before && d.0 <= after
    ensures d.1 <= before && d.1 !! after
  {
    (after - before, before - after)
  }

  /** Applying the difference to the old set yields exactly the new set, and nothing is both loaded and unloaded. */
  lemma GetChunkDifferenceReconstructs(before: set<ChunkCoord>, after: set<ChunkCoord>)
    ensures var d := GetChunkDifference(before, after);
      (before - d.1) + d.0 == after && d.0 !! d.1 && before - d.1 == before * after
  {
  }
}
