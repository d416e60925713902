/**
 * Integer grid coordinates of the streaming world (one cell = one chunk),
 * their string identifiers `chunk_<x>_<z>`, the Chebyshev distance between
 * cells and the world-space box each cell covers.
 */
module ChunkCoords {
  import opened Text

  datatype ChunkCoord = ChunkCoord(x: int, z: int)

  /** A world-space point; the streamer only ever uses the planar x and z. */
  datatype Vec3 = Vec3(x: real, y: real, z: real)

  // ---------------------------------------------------------------------
  // Decimal rendering of integers, as C#'s int.ToString() writes them.
  // ---------------------------------------------------------------------

  /** Signed decimal: a leading '-' for negatives, then the digits of |n|. */
  function IntToString(n: int): (s: string)
    ensures |s| >= 1
    ensures s[0] == '-' <==> n < 0
  {
    if n < 0 then "-" + NatToString(-n) else NatToString(n)
  }

  lemma {:induction false} IntToStringInjective(a: int, b: int)
    requires IntToString(a) == IntToString(b)
    ensures a == b
  {
    if a < 0 && b < 0 {
      DropPrefix("-", NatToString(-a));
      DropPrefix("-", NatToString(-b));
      NatToStringInjective(-a, -b);
    } else if a < 0 || b < 0 {
      // only one rendering starts with '-'
      assert false;
    } else {
      NatToStringInjective(a, b);
    }
  }

  /** A rendered integer never holds the separator '_'. */
  lemma IntToStringHasNoUnderscore(n: int)
    ensures '_' !in IntToString(n)
  {
    var s := IntToString(n);
    if n < 0 {
      var d := NatToString(-n);
      assert s == "-" + d;
      forall i | 0 <= i < |s| ensures s[i] != '_' {
        if i > 0 { assert s[i] == d[i - 1]; }
      }
    }
  }

  // ---------------------------------------------------------------------
  // ChunkCoord members
  // ---------------------------------------------------------------------

  /** `chunk_{X}_{Z}`; the Addressables key of the cell. */
  function ToChunkId(c: ChunkCoord): (id: string)
    ensures |id| > 6 && id[..6] == "chunk_"
  {
    "chunk_" + (IntToString(c.x) + "_" + IntToString(c.z))
  }

  /** Position of the first occurrence of `c` in `t` (|t| when absent). */
  function IndexOf(t: string, c: char): (i: nat)
    ensures i <= |t|
  {
    if |t| == 0 then 0 else if t[0] == c then 0 else 1 + IndexOf(t[1..], c)
  }

  lemma {:induction false} IndexOfSeparator(a: string, b: string)
    requires '_' !in a
    ensures IndexOf(a + "_" + b, '_') == |a|
  {
    if |a| > 0 {
      assert a[0] in a;
      assert (a + "_" + b)[1..] == a[1..] + "_" + b;
      assert forall k :: 0 <= k < |a[1..]| ==> a[1..][k] == a[k + 1];
      IndexOfSeparator(a[1..], b);
    }
  }

  /** Splitting at the first separator: equal strings built around one '_' agree on both halves. */
  lemma SplitAtSeparator(a: string, b: string, a': string, b': string)
    requires '_' !in a && '_' !in a'
    requires a + "_" + b == a' + "_" + b'
    ensures a == a' && b == b'
  {
    var s, s' := a + "_" + b, a' + "_" + b';
    IndexOfSeparator(a, b);
    IndexOfSeparator(a', b');
    assert |a| == |a'|;
    assert a == s[..|a|] == s'[..|a'|] == a';
    assert b == s[|a| + 1..] == s'[|a'| + 1..] == b';
  }

  /** Distinct cells have distinct ids, so ids can key the set of missing chunks. */
  lemma ToChunkIdInjective(c: ChunkCoord, d: ChunkCoord)
    requires ToChunkId(c) == ToChunkId(d)
    ensures c == d
  {
    ChunkIdFields(c);
    ChunkIdFields(d);
    IntToStringHasNoUnderscore(c.x);
    IntToStringHasNoUnderscore(d.x);
    SplitAtSeparator(IntToString(c.x), IntToString(c.z), IntToString(d.x), IntToString(d.z));
    IntToStringInjective(c.x, d.x);
    IntToStringInjective(c.z, d.z);
  }

  /** After the prefix `chunk_`, an id is the two rendered coordinates around '_'. */
  lemma ChunkIdFields(c: ChunkCoord)
    ensures ToChunkId(c)[6..] == IntToString(c.x) + "_" + IntToString(c.z)
  {
    DropPrefix("chunk_", IntToString(c.x) + "_" + IntToString(c.z));
  }

  lemma DropPrefix(p: string, r: string)
    ensures (p + r)[|p|..] == r
  {
  }

  lemma ToChunkIdExamples()
    ensures ToChunkId(ChunkCoord(1, 2)) == "chunk_1_2"
    ensures ToChunkId(ChunkCoord(-1, -2)) == "chunk_-1_-2"
  {
  }

  function Abs(n: int): int { if n < 0 then -n else n }

  /** Chebyshev (max-norm) distance between two cells. */
  function Distance(a: ChunkCoord, b: ChunkCoord): (d: nat)
    ensures d >= Abs(a.x - b.x) && d >= Abs(a.z - b.z)
    ensures d == Abs(a.x - b.x) || d == Abs(a.z - b.z)
  {
    if Abs(a.x - b.x) >= Abs(a.z - b.z) then Abs(a.x - b.x) else Abs(a.z - b.z)
  }

  lemma DistanceSymmetric(a: ChunkCoord, b: ChunkCoord)
    ensures Distance(a, b) == Distance(b, a)
  {
  }

  lemma DistanceZeroIffEqual(a: ChunkCoord, b: ChunkCoord)
    ensures Distance(a, b) == 0 <==> a == b
  {
  }

  lemma DistanceTriangle(a: ChunkCoord, b: ChunkCoord, c: ChunkCoord)
    ensures Distance(a, c) <= Distance(a, b) + Distance(b, c)
  {
  }

  lemma DistanceExample()
    ensures Distance(ChunkCoord(0, 0), ChunkCoord(3, 4)) == 4
  {
  }

  /** The C# struct equality: both components equal; `==` and `!=` agree with it. */
  predicate CoordEquals(a: ChunkCoord, b: ChunkCoord) { a.x == b.x && a.z == b.z }

  lemma CoordEqualsIsIdentity(a: ChunkCoord, b: ChunkCoord)
    ensures CoordEquals(a, b) <==> a == b
  {
  }

  function WorldCenter(c: ChunkCoord, chunkSize: real): (p: Vec3)
    ensures p.y == 0.0
  {
    Vec3((c.x as real + 0.5) * chunkSize, 0.0, (c.z as real + 0.5) * chunkSize)
  }

  function WorldMin(c: ChunkCoord, chunkSize: real): (p: Vec3)
    ensures p.y == 0.0
  {
    Vec3(c.x as real * chunkSize, 0.0, c.z as real * chunkSize)
  }

  function WorldMax(c: ChunkCoord, chunkSize: real): (p: Vec3)
    ensures p.y == 0.0
  {
    Vec3((c.x + 1) as real * chunkSize, 0.0, (c.z + 1) as real * chunkSize)
  }

  /** The box of a cell is exactly one chunk wide and its centre lies halfway across. */
  lemma CellBoxGeometry(c: ChunkCoord, s: real)
    ensures WorldMax(c, s).x - WorldMin(c, s).x == s
    ensures WorldMax(c, s).z - WorldMin(c, s).z == s
    ensures WorldCenter(c, s).x == (WorldMin(c, s).x + WorldMax(c, s).x) / 2.0
    ensures WorldCenter(c, s).z == (WorldMin(c, s).z + WorldMax(c, s).z) / 2.0
  {
  }

  lemma WorldCenterExample()
    ensures WorldCenter(ChunkCoord(1, 2), 100.0) == Vec3(150.0, 0.0, 250.0)
  {
  }
}
