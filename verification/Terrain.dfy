/** What generated chunks look like in block ids: the ground, and the buildings on it. */
module Terrain {
  import opened Prelude
  import opened WorldProfile
  import opened PoiGrid
  import opened ChunkStore
  import opened PoiStamps
  import opened WorldReference
  import opened VoxelWorld

  const AIR: BlockId := 0
  const DIRT: BlockId := 1
  const ROCK: BlockId := 2
  const GRASS: BlockId := 3

  // ---------------------------------------------------------------------------------------------
  // Open ground
  // ---------------------------------------------------------------------------------------------

  /** No point of interest of the infinite grid writes at the position. */
  ghost predicate IsOpen(g: Gen, x: int, y: int, z: int) { forall c :: Real(g, c) ==> !Writes(g, c, x, y, z) }

  /** The sampled height is the noise's, kept within 1 and the greatest height; nothing is sampled without a height. */
  lemma SampledHeight(g: Gen, x: int, z: int)
    ensures var h, noise := SampleHeight(g, x, z), g.noise.height(x, z, g.maxHeight);
            && (g.maxHeight <= 0 ==> h == 0)
            && (g.maxHeight > 0 ==> 1 <= h <= g.maxHeight)
            && (1 <= noise <= g.maxHeight ==> h == noise)
            && (0 < g.maxHeight < noise ==> h == g.maxHeight)
            && (noise < 1 <= g.maxHeight ==> h == 1)
  {
  }

  /**
   * On open ground a generated chunk is air exactly from the sampled height up; below lies one block of grass, then two of
   * dirt, then rock all the way down.
   */
  lemma OpenGround(g: Gen, k: ChunkCoord, blocks: Blocks, x: int, y: int, z: int)
    requires Sane(g.profile) && Generated(g, k, blocks) && InChunk(k, x, y, z) && IsOpen(g, x, y, z)
    ensures var id, h := At(blocks, k, x, y, z), SampleHeight(g, x, z);
            && (id == AIR <==> y >= h)
            && (id == GRASS <==> y == h - 1)
            && (id == DIRT <==> y == h - 2 || y == h - 3)
            && (id == ROCK <==> y < h - 3)
  {
    hide Real, Writes, SampleHeight;
    NobodyIsUncut(g, k, x, y, z);
    ChunkShowsUncutPicture(g, k, blocks, x, y, z, TerrainBlock(g, x, y, z));
  }

  /** The blocks other than air that a column shows below `top`. */
  ghost function Solids(picture: map<ChunkCoord, Blocks>, x: int, z: int, top: nat): nat {
    if top == 0 then 0
    else
      var id := BlockIn(picture, x, top - 1, z);
      Solids(picture, x, z, top - 1) + if id.Some? && id.value != AIR then 1 else 0
  }

  /** Every block of the column below `top` is loaded, generated and open. */
  ghost predicate OpenColumn(g: Gen, picture: map<ChunkCoord, Blocks>, x: int, z: int, top: int) {
    forall y :: 0 <= y < top ==>
      && ChunkAt(x, y, z) in picture && Generated(g, ChunkAt(x, y, z), picture[ChunkAt(x, y, z)])
      && IsOpen(g, x, y, z)
  }

  /** A column shows as many blocks other than air as its height is sampled, over all its chunks. */
  lemma {:induction false} ColumnHoldsItsHeight(g: Gen, picture: map<ChunkCoord, Blocks>, x: int, z: int, top: nat)
    requires Sane(g.profile) && x >= 0 && z >= 0 && OpenColumn(g, picture, x, z, top)
    ensures Solids(picture, x, z, top) == Min(top, SampleHeight(g, x, z))
  {
    hide Generated, IsOpen, SampleHeight, At;
    SampledHeight(g, x, z);
    if top > 0 {
      var y := top - 1;
      var k := ChunkAt(x, y, z);
      ColumnHoldsItsHeight(g, picture, x, z, y);
      assert k in picture && Generated(g, k, picture[k]) && IsOpen(g, x, y, z);
      ChunkAtIsTheChunk(x, y, z, k);
      OpenGround(g, k, picture[k], x, y, z);
      assert BlockIn(picture, x, y, z) == Some(At(picture[k], k, x, y, z));
    }
  }

  /** In the box that World.Generate fills, an open column holds exactly its sampled height. */
  lemma GeneratedColumnHoldsItsHeight(g: Gen, picture: map<ChunkCoord, Blocks>, chunksX: int, chunksZ: int, x: int, z: int)
    requires Sane(g.profile) && g.maxHeight >= 0 && 0 <= x < chunksX * CHUNK_SIZE && 0 <= z < chunksZ * CHUNK_SIZE
    requires forall k :: k in picture <==> 0 <= k.x < chunksX && 0 <= k.z < chunksZ && 0 <= k.y && k.y * CHUNK_SIZE < g.maxHeight
    requires forall k :: k in picture ==> Generated(g, k, picture[k])
    requires forall y :: 0 <= y < g.maxHeight ==> IsOpen(g, x, y, z)
    ensures Solids(picture, x, z, g.maxHeight) == SampleHeight(g, x, z)
  {
    hide Generated, IsOpen, SampleHeight, Solids;
    forall y | 0 <= y < g.maxHeight ensures ChunkAt(x, y, z) in picture {
      InSpan(x, chunksX);
      InSpan(z, chunksZ);
      FloorDivIsFloor(y, CHUNK_SIZE, FloorDiv(y, CHUNK_SIZE));
    }
    SampledHeight(g, x, z);
    ColumnHoldsItsHeight(g, picture, x, z, g.maxHeight);
  }

  lemma InSpan(x: int, chunks: int)
    requires 0 <= x < chunks * CHUNK_SIZE
    ensures 0 <= FloorDiv(x, CHUNK_SIZE) < chunks
  {
    FloorDivIsFloor(x, CHUNK_SIZE, FloorDiv(x, CHUNK_SIZE));
  }

  // ---------------------------------------------------------------------------------------------
  // Which buildings there are, and which shows
  // ---------------------------------------------------------------------------------------------

  /** By hash, then cell. */
  predicate Outranks(a: Poi, b: Poi) {
    a.rank < b.rank || (a.rank == b.rank && (a.cellX < b.cellX || (a.cellX == b.cellX && a.cellZ < b.cellZ)))
  }

  /** A candidate is built exactly if no candidate of another cell that outranks it is closer than the minimum spacing. */
  lemma BuiltExactly(c: Poi, p: Profile, noise: Noise)
    requires Sane(p) && IsCandidate(c, p, noise)
    ensures OnGrid(c, p, noise) <==>
            forall d :: IsCandidate(d, p, noise) && Outranks(d, c) && (d.cellX != c.cellX || d.cellZ != c.cellZ) ==>
              (d.centerX - c.centerX) * (d.centerX - c.centerX) + (d.centerZ - c.centerZ) * (d.centerZ - c.centerZ)
              >= p.minPoiSpacingUnits * p.minPoiSpacingUnits
  {
    forall cellX, cellZ | Evicts(cellX, cellZ, c, p, noise)
      ensures exists d :: IsCandidate(d, p, noise) && Outranks(d, c) && (d.cellX != c.cellX || d.cellZ != c.cellZ) && TooClose(c, d, p.minPoiSpacingUnits)
    {
      var d := BuildCandidate(cellX, cellZ, p, noise).value;
      assert d.cellX == cellX && d.cellZ == cellZ;
      assert IsCandidate(d, p, noise) && Outranks(d, c) && TooClose(c, d, p.minPoiSpacingUnits);
    }
    forall d | IsCandidate(d, p, noise) && Outranks(d, c) && (d.cellX != c.cellX || d.cellZ != c.cellZ) && TooClose(c, d, p.minPoiSpacingUnits)
      ensures Evicts(d.cellX, d.cellZ, c, p, noise)
    {
    }
  }

  /** Where buildings overlap, the one whose middle has the greatest x shows, then the one with the greatest z. */
  lemma GreatestXShows(g: Gen, c: Poi, d: Poi, x: int, y: int, z: int)
    requires Sane(g.profile) && Governs(g, c, x, y, z) && Real(g, d) && Writes(g, d, x, y, z)
    ensures d.centerX < c.centerX || (d.centerX == c.centerX && d.centerZ <= c.centerZ)
  {
  }

  // ---------------------------------------------------------------------------------------------
  // Outposts
  // ---------------------------------------------------------------------------------------------

  function Size(i: int): nat { if i < 0 then -i else i }

  /** How far a column is from the middle, by the longer side. */
  function Ring(p: (int, int)): nat { Max(Size(p.0), Size(p.1)) }

  /** The three columns of the gate, in the middle of the wall of least z. */
  predicate Gate(p: (int, int)) { Size(p.0) <= 1 && p.1 == -6 }

  /** Somebody can stand there: the outpost leaves air, or whatever was there before. */
  predicate Passable(p: (int, int), h: int) { OutpostBlock(p.0, h, p.1) in {None, Some(AIR)} }

  predicate Walk(path: seq<(int, int)>, h: int) {
    && (forall i :: 0 <= i < |path| ==> Passable(path[i], h))
    && (forall i :: 0 <= i < |path| - 1 ==> Size(path[i + 1].0 - path[i].0) <= 1 && Size(path[i + 1].1 - path[i].1) <= 1)
  }

  /** The wall of an outpost is three blocks high and closed but for the gate, which is two blocks high. */
  lemma WallIsClosed(p: (int, int), h: int)
    requires Ring(p) == 6
    ensures OutpostBlock(p.0, 0, p.1) == Some(ROCK)
    ensures 1 <= h <= 3 ==> (Passable(p, h) <==> Gate(p) && h <= 2)
    ensures h < 0 || h > 3 ==> OutpostBlock(p.0, h, p.1) == None
  {
  }

  /** At both heights of a body, every way from outside an outpost to its inside leads through the gate. */
  lemma {:induction false} EveryWayInLeadsThroughTheGate(path: seq<(int, int)>, h: int)
    requires 1 <= h <= 2 && Walk(path, h) && path != [] && Ring(path[0]) > 6 && Ring(path[|path| - 1]) < 6
    ensures exists i :: 0 <= i < |path| && Gate(path[i])
  {
    hide Passable, Gate, Ring;
    var n := |path| - 1;
    var before := path[..n];
    if n == 0 {
      assert false;
    } else {
      NextRing(path[n - 1], path[n]);
      if Ring(path[n - 1]) < 6 {
        EveryWayInLeadsThroughTheGate(before, h);
        var i :| 0 <= i < |before| && Gate(before[i]);
        assert Gate(path[i]);
      } else {
        WallIsClosed(path[n - 1], h);
      }
    }
  }

  lemma NextRing(p: (int, int), q: (int, int))
    requires Size(q.0 - p.0) <= 1 && Size(q.1 - p.1) <= 1
    ensures Ring(p) <= Ring(q) + 1
  {
  }

  /** Inside the walls there is a floor of rock and, but for one tower of six with grass on top, nothing above it. */
  lemma OutpostInside(p: (int, int), h: int)
    requires Ring(p) < 6
    ensures OutpostBlock(p.0, 0, p.1) == Some(ROCK)
    ensures h != 0 ==> (OutpostBlock(p.0, h, p.1) == Some(ROCK) <==> p == (5, 5) && 1 <= h <= 6)
    ensures h != 0 ==> (OutpostBlock(p.0, h, p.1) == Some(GRASS) <==> p == (5, 5) && h == 7)
    ensures OutpostBlock(p.0, h, p.1) in {None, Some(ROCK), Some(GRASS)}
  {
  }

  // ---------------------------------------------------------------------------------------------
  // Ruins and shrines
  // ---------------------------------------------------------------------------------------------

  /** Ruins: a chequered floor of rock and dirt, rock in the middle, and on the ring walls of two where they still stand. */
  lemma RuinsPlan(p: (int, int), h: int, standing: bool)
    ensures Ring(p) <= 4 ==>
              && RuinsBlock(p.0, 0, p.1, standing) == Some(if (Size(p.0) + Size(p.1)) % 2 == 0 then ROCK else DIRT)
              && (h != 0 ==> RuinsBlock(p.0, h, p.1, standing) == None)
    ensures Ring(p) == 5 ==>
              && RuinsBlock(p.0, h, p.1, false) == None
              && (RuinsBlock(p.0, h, p.1, true) == if 1 <= h <= 2 then Some(ROCK) else None)
    ensures Ring(p) > 5 ==> RuinsBlock(p.0, h, p.1, standing) == None
  {
  }

  /** A shrine looks the same from all four sides and in the mirror. */
  lemma ShrineIsSymmetric(u: int, h: int, v: int)
    ensures ShrineBlock(u, h, v) == ShrineBlock(-v, h, u) == ShrineBlock(-u, h, v)
  {
  }

  /** A shrine: a round floor of rock, a pillar of three in the middle, and grass on it and at the four sides. */
  lemma ShrinePlan(u: int, h: int, v: int)
    ensures h == 0 ==> (ShrineBlock(u, h, v) == Some(ROCK) <==> u * u + v * v <= 10) && ShrineBlock(u, h, v) in {None, Some(ROCK)}
    ensures h != 0 ==> (ShrineBlock(u, h, v) == Some(ROCK) <==> u == v == 0 && 1 <= h <= 3)
    ensures h != 0 ==> (ShrineBlock(u, h, v) == Some(GRASS) <==> (u == v == 0 && h == 4) || (Size(u) + Size(v) == 3 && u * v == 0 && h == 1))
    ensures ShrineBlock(u, h, v) in {None, Some(ROCK), Some(GRASS)}
  {
    if h == 0 && u * u + v * v <= 10 {
      NearSquare(u, v);
      NearSquare(v, u);
    }
  }

  lemma NearSquare(u: int, v: int)
    requires u * u + v * v <= 10
    ensures -3 <= u <= 3
  {
    var m := Size(u);
    assert m * m == u * u && v * v >= 0;
    if m >= 4 {
      MulMono(4, m, 4);
      MulMono(4, m, m);
    }
  }

  /** A building's floor takes the place of the grass in its middle. */
  lemma FloorIsTheGround(g: Gen, c: Poi)
    requires g.maxHeight > 0
    ensures FloorY(g, c) == SampleHeight(g, c.centerX, c.centerZ) - 1
  {
  }
}
