/**
 * What the world looks like when every point of interest of the infinite grid is painted once, in
 * painting order, over the terrain; and how the chunk-by-chunk painter relates to that picture.
 */
module WorldReference {
  import opened Prelude
  import opened WorldProfile
  import opened PoiGrid
  import opened ChunkStore
  import opened PoiStamps

  ghost predicate Real(g: Gen, c: Poi) { OnGrid(c, g.profile, g.noise) }

  predicate Writes(g: Gen, c: Poi, x: int, y: int, z: int) { PoiBlock(g, c, x, y, z).Some? }

  /** On the infinite grid, c is the last to write at the position. */
  ghost predicate Governs(g: Gen, c: Poi, x: int, y: int, z: int) {
    && Real(g, c) && Writes(g, c, x, y, z)
    && forall d :: Real(g, d) && Writes(g, d, x, y, z) && d != c ==> PaintsBefore(d, c)
  }

  /** The block of the infinite picture. */
  ghost predicate IsWorldBlock(g: Gen, x: int, y: int, z: int, id: BlockId) {
    if exists c :: Governs(g, c, x, y, z)
    then exists c :: Governs(g, c, x, y, z) && PoiBlock(g, c, x, y, z) == Some(id)
    else id == TerrainBlock(g, x, y, z)
  }

  // ---------------------------------------------------------------------------------------------
  // The chunk's own picture
  // ---------------------------------------------------------------------------------------------

  /** Painting a list over a block: the last writer wins. */
  function PaintOver(g: Gen, list: seq<Poi>, x: int, y: int, z: int, below: BlockId): BlockId {
    if list == [] then below
    else Over(PoiBlock(g, list[|list| - 1], x, y, z), PaintOver(g, list[..|list| - 1], x, y, z, below))
  }

  function LastWriter(g: Gen, list: seq<Poi>, x: int, y: int, z: int): (w: Option<Poi>)
    ensures w.Some? ==> w.value in list && Writes(g, w.value, x, y, z)
    ensures w.None? <==> forall c :: c in list ==> !Writes(g, c, x, y, z)
  {
    if list == [] then None
    else
      var c := list[|list| - 1];
      assert forall d :: d in list <==> d in list[..|list| - 1] || d == c;
      if Writes(g, c, x, y, z) then Some(c) else LastWriter(g, list[..|list| - 1], x, y, z)
  }

  lemma {:induction false} PaintShowsLastWriter(g: Gen, list: seq<Poi>, x: int, y: int, z: int, below: BlockId)
    ensures PaintOver(g, list, x, y, z, below) ==
            match LastWriter(g, list, x, y, z)
            case Some(c) => PoiBlock(g, c, x, y, z).value
            case None => below
  {
    if list != [] { PaintShowsLastWriter(g, list[..|list| - 1], x, y, z, below); }
  }

  lemma {:induction false} LastWriterIsLatest(g: Gen, list: seq<Poi>, x: int, y: int, z: int)
    requires forall i, j :: 0 <= i < j < |list| ==> PaintsBefore(list[i], list[j])
    ensures var w := LastWriter(g, list, x, y, z);
            w.Some? ==> forall d :: d in list && Writes(g, d, x, y, z) && d != w.value ==> PaintsBefore(d, w.value)
  {
    if list != [] {
      var c := list[|list| - 1];
      LastWriterIsLatest(g, list[..|list| - 1], x, y, z);
      forall d | d in list && d != c ensures d in list[..|list| - 1] && PaintsBefore(d, c) {
        var i :| 0 <= i < |list| && list[i] == d;
        assert d == list[..|list| - 1][i];
      }
    }
  }

  /** The blocks are the terrain painted over with the chunk's list. */
  ghost predicate Generated(g: Gen, k: ChunkCoord, blocks: Blocks) {
    exists list :: IsChunkList(list, k.x, k.z, g.profile, g.noise) && PaintedWith(g, k, list, blocks)
  }

  ghost predicate PaintedWith(g: Gen, k: ChunkCoord, list: seq<Poi>, blocks: Blocks) {
    forall x, y, z :: InChunk(k, x, y, z) ==>
      At(blocks, k, x, y, z) == PaintOver(g, list, x, y, z, TerrainBlock(g, x, y, z))
  }

  /** Generation is a function of the generator's inputs and the coordinate: order cannot matter. */
  lemma GeneratedIsUnique(g: Gen, k: ChunkCoord, a: Blocks, b: Blocks)
    requires Sane(g.profile) && Generated(g, k, a) && Generated(g, k, b)
    ensures a == b
  {
    var s :| IsChunkList(s, k.x, k.z, g.profile, g.noise) && PaintedWith(g, k, s, a);
    var t :| IsChunkList(t, k.x, k.z, g.profile, g.noise) && PaintedWith(g, k, t, b);
    ChunkListUnique(s, t, k.x, k.z, g.profile, g.noise);
    forall x, y, z | IsInside(x, y, z) ensures BlockOf(a, x, y, z) == BlockOf(b, x, y, z) {
      var wx, wy, wz := x + k.x * CHUNK_SIZE, y + k.y * CHUNK_SIZE, z + k.z * CHUNK_SIZE;
      assert InChunk(k, wx, wy, wz);
      assert At(a, k, wx, wy, wz) == At(b, k, wx, wy, wz);
    }
    SameBlocks(a, b);
  }

  // ---------------------------------------------------------------------------------------------
  // Which writes a chunk can miss
  // ---------------------------------------------------------------------------------------------

  /** The column is one of the four corners of a footprint that reaches past the point of interest's disc. */
  predicate CornerColumn(c: Poi, x: int, z: int) {
    var u, v := x - c.centerX, z - c.centerZ;
    || (c.kind == Outpost && (u == 6 || u == -6) && (v == 6 || v == -6))
    || (c.kind == Ruins && (u == 5 || u == -5) && (v == 5 || v == -5))
  }

  /** The column is the chunk's only column in the footprint: its own corner, pointing at the center. */
  predicate NearestColumn(c: Poi, chunkX: int, chunkZ: int, x: int, z: int) {
    && x == Clamp(c.centerX, chunkX * CHUNK_SIZE, chunkX * CHUNK_SIZE + (CHUNK_SIZE - 1))
    && z == Clamp(c.centerZ, chunkZ * CHUNK_SIZE, chunkZ * CHUNK_SIZE + (CHUNK_SIZE - 1))
  }

  /** The chunk's painter skips a point of interest that writes in it exactly over such a cut corner. */
  lemma MissedExactlyAtCutCorners(g: Gen, c: Poi, k: ChunkCoord, x: int, y: int, z: int)
    requires c.radius == Radius(c.kind)
    requires InChunk(k, x, y, z) && Writes(g, c, x, y, z)
    ensures !IntersectsChunk(c, k.x, k.z) <==> CornerColumn(c, x, z) && NearestColumn(c, k.x, k.z, x, z)
  {
    var minX, minZ := k.x * CHUNK_SIZE, k.z * CHUNK_SIZE;
    var nx, nz := Clamp(c.centerX, minX, minX + (CHUNK_SIZE - 1)), Clamp(c.centerZ, minZ, minZ + (CHUNK_SIZE - 1));
    var dx, dz := c.centerX - nx, c.centerZ - nz;
    var u, v := c.centerX - x, c.centerZ - z;
    var reach := match c.kind case Outpost => 6 case Ruins => 5 case LootShrine => 3;
    assert -reach <= u <= reach && -reach <= v <= reach;
    NearestIsNearest(c.centerX, x, minX, minX + (CHUNK_SIZE - 1), reach);
    NearestIsNearest(c.centerZ, z, minZ, minZ + (CHUNK_SIZE - 1), reach);
    SmallSquare(dx, reach);
    SmallSquare(dz, reach);
  }

  lemma NearestIsNearest(center: int, x: int, lo: int, hi: int, reach: int)
    requires lo <= x <= hi && -reach <= center - x <= reach
    ensures var d := center - Clamp(center, lo, hi);
            && -reach <= d <= reach
            && (d == reach ==> Clamp(center, lo, hi) == x) && (d == -reach ==> Clamp(center, lo, hi) == x)
  {
  }

  lemma SmallSquare(d: int, reach: int)
    requires 0 < reach <= 6 && -reach <= d <= reach
    ensures d * d <= reach * reach
    ensures d != reach && d != -reach ==> d * d <= (reach - 1) * (reach - 1)
  {
    var m := if d >= 0 then d else -d;
    assert m * m == d * d;
    MulMono(m, reach, m);
    MulMono(m, reach, reach);
    if m <= reach - 1 {
      MulMono(m, reach - 1, m);
      MulMono(m, reach - 1, reach - 1);
    }
  }

  // ---------------------------------------------------------------------------------------------
  // Somebody governs wherever anybody writes
  // ---------------------------------------------------------------------------------------------

  const REACH := 6

  /** The real points of interest that write at a position, found by their cells. */
  ghost function Writers(g: Gen, x: int, y: int, z: int): set<Poi> {
    var size := CellSize(g.profile);
    set cellX, cellZ |
      && FloorDiv(x - REACH, size) <= cellX <= FloorDiv(x + REACH, size)
      && FloorDiv(z - REACH, size) <= cellZ <= FloorDiv(z + REACH, size)
      && var c := BuildCandidate(cellX, cellZ, g.profile, g.noise);
         c.Some? && Real(g, c.value) && Writes(g, c.value, x, y, z)
      :: BuildCandidate(cellX, cellZ, g.profile, g.noise).value
  }

  lemma WritersAreAll(g: Gen, c: Poi, x: int, y: int, z: int)
    requires Sane(g.profile)
    ensures c in Writers(g, x, y, z) <==> Real(g, c) && Writes(g, c, x, y, z)
  {
    if Real(g, c) && Writes(g, c, x, y, z) {
      var size := CellSize(g.profile);
      CenterStaysInCell(c, g.profile, g.noise);
      FloorDivIsFloor(c.centerX, size, c.cellX);
      FloorDivIsFloor(c.centerZ, size, c.cellZ);
      FloorIsMonotone(x - REACH, c.centerX, size);
      FloorIsMonotone(c.centerX, x + REACH, size);
      FloorIsMonotone(z - REACH, c.centerZ, size);
      FloorIsMonotone(c.centerZ, z + REACH, size);
    }
  }

  lemma {:induction false} LatestExists(s: set<Poi>) returns (latest: Poi)
    requires s != {}
    requires forall c, d :: c in s && d in s && c != d ==> PaintsBefore(c, d) || PaintsBefore(d, c)
    ensures latest in s && forall c :: c in s && c != latest ==> PaintsBefore(c, latest)
  {
    var c :| c in s;
    var rest := s - {c};
    assert s == rest + {c};
    if rest == {} {
      latest := c;
    } else {
      var l := LatestExists(rest);
      assert c != l;
      latest := if PaintsBefore(l, c) then c else l;
      forall d | d in s && d != latest ensures PaintsBefore(d, latest) {
        if d != c && d != l { assert PaintsBefore(d, l); }
      }
    }
  }

  lemma WritersAreComparable(g: Gen, x: int, y: int, z: int)
    requires Sane(g.profile)
    ensures forall c :: c in Writers(g, x, y, z) <==> Real(g, c) && Writes(g, c, x, y, z)
    ensures forall c, d :: c in Writers(g, x, y, z) && d in Writers(g, x, y, z) && c != d ==> PaintsBefore(c, d) || PaintsBefore(d, c)
  {
    hide Writers;
    var writers := Writers(g, x, y, z);
    forall c ensures c in writers <==> Real(g, c) && Writes(g, c, x, y, z) {
      WritersAreAll(g, c, x, y, z);
    }
    forall c, d | c in writers && d in writers && c != d ensures PaintsBefore(c, d) || PaintsBefore(d, c) {
      PaintOrderIsTotal(c, d, g.profile, g.noise);
    }
  }

  lemma SomebodyGoverns(g: Gen, x: int, y: int, z: int) returns (governor: Option<Poi>)
    requires Sane(g.profile)
    ensures governor.Some? ==> Governs(g, governor.value, x, y, z)
    ensures governor.None? ==> forall c :: Real(g, c) ==> !Writes(g, c, x, y, z)
  {
    hide Writers;
    WritersAreComparable(g, x, y, z);
    if Writers(g, x, y, z) == {} {
      governor := None;
    } else {
      var c := LatestExists(Writers(g, x, y, z));
      governor := Some(c);
    }
  }

  lemma GovernorUnique(g: Gen, c: Poi, d: Poi, x: int, y: int, z: int)
    requires Sane(g.profile) && Governs(g, c, x, y, z) && Governs(g, d, x, y, z)
    ensures c == d
  {
    if c != d { PaintOrderIsTotal(c, d, g.profile, g.noise); }
  }

  // ---------------------------------------------------------------------------------------------
  // The theorem
  // ---------------------------------------------------------------------------------------------

  predicate CutCorner(c: Poi, k: ChunkCoord, x: int, z: int) {
    CornerColumn(c, x, z) && NearestColumn(c, k.x, k.z, x, z)
  }

  /** Among the real points of interest that do not lose this corner, c is the last to write. */
  ghost predicate GovernsUncut(g: Gen, k: ChunkCoord, c: Poi, x: int, y: int, z: int) {
    && Real(g, c) && Writes(g, c, x, y, z) && !CutCorner(c, k, x, z)
    && forall d :: Real(g, d) && Writes(g, d, x, y, z) && !CutCorner(d, k, x, z) && d != c ==> PaintsBefore(d, c)
  }

  /** Either some uncut writer is the last of them, or every writer there loses this corner. */
  lemma SomebodyGovernsUncut(g: Gen, k: ChunkCoord, x: int, y: int, z: int) returns (governor: Option<Poi>)
    requires Sane(g.profile)
    ensures governor.Some? ==> GovernsUncut(g, k, governor.value, x, y, z)
    ensures governor.None? ==> forall c :: Real(g, c) && Writes(g, c, x, y, z) ==> CutCorner(c, k, x, z)
  {
    hide Writers;
    WritersAreComparable(g, x, y, z);
    var uncut := set c | c in Writers(g, x, y, z) && !CutCorner(c, k, x, z);
    if uncut == {} {
      governor := None;
      forall c | Real(g, c) && Writes(g, c, x, y, z) ensures CutCorner(c, k, x, z) {
        assert c !in uncut;
      }
    } else {
      var c := LatestExists(uncut);
      governor := Some(c);
    }
  }

  lemma UncutGovernorUnique(g: Gen, k: ChunkCoord, c: Poi, d: Poi, x: int, y: int, z: int)
    requires Sane(g.profile) && GovernsUncut(g, k, c, x, y, z) && GovernsUncut(g, k, d, x, y, z)
    ensures c == d
  {
    if c != d { PaintOrderIsTotal(c, d, g.profile, g.noise); }
  }

  /** The block of the infinite picture with this chunk's cut corners left out. */
  ghost predicate IsUncutBlock(g: Gen, k: ChunkCoord, x: int, y: int, z: int, id: BlockId) {
    if exists c :: GovernsUncut(g, k, c, x, y, z)
    then exists c :: GovernsUncut(g, k, c, x, y, z) && PoiBlock(g, c, x, y, z) == Some(id)
    else id == TerrainBlock(g, x, y, z)
  }

  /** The last writer of a chunk's own list is the last uncut writer of the infinite grid. */
  lemma LastListedGoverns(g: Gen, k: ChunkCoord, list: seq<Poi>, x: int, y: int, z: int)
    requires Sane(g.profile) && IsChunkList(list, k.x, k.z, g.profile, g.noise) && InChunk(k, x, y, z)
    ensures var w := LastWriter(g, list, x, y, z); w.Some? ==> GovernsUncut(g, k, w.value, x, y, z)
    ensures LastWriter(g, list, x, y, z).None? ==> forall c :: !GovernsUncut(g, k, c, x, y, z)
  {
    LastWriterIsLatest(g, list, x, y, z);
    ListedExactlyTheUncut(g, k, list, x, y, z);
  }

  /**
   * Painting each chunk from its own windowed list gives exactly the picture of the infinite grid from
   * which this chunk's cut corners are left out, whichever writers meet at a position.
   */
  lemma ChunkShowsUncutPicture(g: Gen, k: ChunkCoord, blocks: Blocks, x: int, y: int, z: int, id: BlockId)
    requires Sane(g.profile) && Generated(g, k, blocks) && InChunk(k, x, y, z)
    ensures IsUncutBlock(g, k, x, y, z, id) <==> id == At(blocks, k, x, y, z)
  {
    var list :| IsChunkList(list, k.x, k.z, g.profile, g.noise) && PaintedWith(g, k, list, blocks);
    PaintShowsLastWriter(g, list, x, y, z, TerrainBlock(g, x, y, z));
    LastListedGoverns(g, k, list, x, y, z);
    var w := LastWriter(g, list, x, y, z);
    if w.Some? {
      forall c | GovernsUncut(g, k, c, x, y, z) ensures c == w.value {
        UncutGovernorUnique(g, k, c, w.value, x, y, z);
      }
    }
  }

  /** Corners that can be cut are always stone. */
  lemma CornersAreStone(g: Gen, c: Poi, x: int, y: int, z: int)
    requires CornerColumn(c, x, z) && Writes(g, c, x, y, z)
    ensures PoiBlock(g, c, x, y, z) == Some(STONE)
  {
  }

  const STONE: BlockId := 2

  /** The world's last writer at the position is cut in this chunk. */
  ghost predicate GovernorIsCut(g: Gen, k: ChunkCoord, x: int, y: int, z: int) {
    exists c :: Governs(g, c, x, y, z) && CutCorner(c, k, x, z)
  }

  /**
   * A chunk shows the block of the infinite picture exactly where the world's last writer keeps its corner,
   * or loses it over stone: the last uncut writer, or the terrain where there is none, is stone as well.
   */
  lemma ChunksPaintTheWorld(g: Gen, k: ChunkCoord, blocks: Blocks, x: int, y: int, z: int)
    requires Sane(g.profile) && Generated(g, k, blocks) && InChunk(k, x, y, z)
    ensures IsWorldBlock(g, x, y, z, At(blocks, k, x, y, z)) <==>
            (GovernorIsCut(g, k, x, y, z) ==> IsUncutBlock(g, k, x, y, z, STONE))
  {
    var shown := At(blocks, k, x, y, z);
    var governor := SomebodyGoverns(g, x, y, z);
    ChunkShowsUncutPicture(g, k, blocks, x, y, z, shown);
    ChunkShowsUncutPicture(g, k, blocks, x, y, z, STONE);
    if governor.None? {
      NobodyIsUncut(g, k, x, y, z);
    } else {
      var c := governor.value;
      WorldShows(g, c, x, y, z, shown);
      if CutCorner(c, k, x, z) {
        CornersAreStone(g, c, x, y, z);
      } else {
        UncutShows(g, k, c, x, y, z, shown);
      }
    }
  }

  lemma NobodyIsUncut(g: Gen, k: ChunkCoord, x: int, y: int, z: int)
    requires forall c :: Real(g, c) ==> !Writes(g, c, x, y, z)
    ensures forall id :: IsWorldBlock(g, x, y, z, id) <==> IsUncutBlock(g, k, x, y, z, id)
    ensures !GovernorIsCut(g, k, x, y, z)
  {
  }

  /** Where c governs, the picture's block is c's, and whether the governor is cut is whether c is. */
  lemma WorldShows(g: Gen, c: Poi, x: int, y: int, z: int, id: BlockId)
    requires Sane(g.profile) && Governs(g, c, x, y, z)
    ensures IsWorldBlock(g, x, y, z, id) <==> PoiBlock(g, c, x, y, z) == Some(id)
    ensures forall k :: GovernorIsCut(g, k, x, y, z) <==> CutCorner(c, k, x, z)
  {
    forall d | Governs(g, d, x, y, z) ensures d == c { GovernorUnique(g, c, d, x, y, z); }
  }

  lemma UncutShows(g: Gen, k: ChunkCoord, c: Poi, x: int, y: int, z: int, id: BlockId)
    requires Sane(g.profile) && Governs(g, c, x, y, z) && !CutCorner(c, k, x, z)
    ensures IsUncutBlock(g, k, x, y, z, id) <==> PoiBlock(g, c, x, y, z) == Some(id)
  {
    assert GovernsUncut(g, k, c, x, y, z);
    forall d | GovernsUncut(g, k, d, x, y, z) ensures d == c { UncutGovernorUnique(g, k, c, d, x, y, z); }
  }

  lemma ListedExactlyTheUncut(g: Gen, k: ChunkCoord, list: seq<Poi>, x: int, y: int, z: int)
    requires Sane(g.profile) && IsChunkList(list, k.x, k.z, g.profile, g.noise) && InChunk(k, x, y, z)
    ensures forall c :: Real(g, c) && Writes(g, c, x, y, z) ==> (c in list <==> !CutCorner(c, k, x, z))
  {
    forall c | Real(g, c) && Writes(g, c, x, y, z) ensures c in list <==> !CutCorner(c, k, x, z) {
      CenterStaysInCell(c, g.profile, g.noise);
      MissedExactlyAtCutCorners(g, c, k, x, y, z);
    }
  }

  /** The picture has one block per position. */
  lemma WorldBlockUnique(g: Gen, x: int, y: int, z: int, a: BlockId, b: BlockId)
    requires Sane(g.profile) && IsWorldBlock(g, x, y, z, a) && IsWorldBlock(g, x, y, z, b)
    ensures a == b
  {
    if c :| Governs(g, c, x, y, z) && PoiBlock(g, c, x, y, z) == Some(a) {
      var d :| Governs(g, d, x, y, z) && PoiBlock(g, d, x, y, z) == Some(b);
      GovernorUnique(g, c, d, x, y, z);
    }
  }

  /** A generator whose hash is the same everywhere: one outpost per cell, 27 blocks off the middle. */
  const CUT_EXAMPLE := Gen(
    Profile(0, true, Low, 4, 63, 0, PoiToggles(true, false, false), 1.0),
    Noise((seed, x, z, salt) => 36, (x, z, top) => 10), 64)

  lemma ExampleCandidates(cellX: int, cellZ: int)
    ensures BuildCandidate(cellX, cellZ, CUT_EXAMPLE.profile, CUT_EXAMPLE.noise) ==
            if cellX < 0 || cellZ < 0 then None
            else Some(Poi(Outpost, 128 * cellX + 37, 128 * cellZ + 37, cellX, cellZ, 8, 36))
  {
    assert EnabledTypes(CUT_EXAMPLE.profile.poiTypes) == [Outpost];
    assert CellSize(CUT_EXAMPLE.profile) == 128;
    assert HashSignedRange(36, -63, 63) == -27;
  }

  /** Cut corners do occur: here the picture has an outpost's stone floor and the chunk has grass. */
  lemma CutCornerOccurs(blocks: Blocks)
    requires Generated(CUT_EXAMPLE, ChunkCoord(0, 0, 0), blocks)
    ensures Sane(CUT_EXAMPLE.profile)
    ensures IsWorldBlock(CUT_EXAMPLE, 31, 9, 31, 2)
    ensures At(blocks, ChunkCoord(0, 0, 0), 31, 9, 31) == 3
  {
    var c := Poi(Outpost, 37, 37, 0, 0, 8, 36);
    ExampleGoverns(c);
    ExampleBlocks(c);
    ExampleIsCut(c);
    ChunkShowsUncutPicture(CUT_EXAMPLE, ChunkCoord(0, 0, 0), blocks, 31, 9, 31, 3);
  }

  lemma ExampleGoverns(c: Poi)
    requires c == Poi(Outpost, 37, 37, 0, 0, 8, 36)
    ensures Governs(CUT_EXAMPLE, c, 31, 9, 31)
    ensures forall d :: Real(CUT_EXAMPLE, d) && Writes(CUT_EXAMPLE, d, 31, 9, 31) ==> d == c
  {
    ExampleCandidates(0, 0);
    NoSpacingNoEviction(c, CUT_EXAMPLE.profile, CUT_EXAMPLE.noise);
    ExampleBlocks(c);
    forall d | Real(CUT_EXAMPLE, d) && Writes(CUT_EXAMPLE, d, 31, 9, 31) ensures d == c {
      ExampleWriterIsAlone(c, d);
    }
  }

  lemma ExampleIsCut(c: Poi)
    requires c == Poi(Outpost, 37, 37, 0, 0, 8, 36)
    ensures CutCorner(c, ChunkCoord(0, 0, 0), 31, 31)
    ensures InChunk(ChunkCoord(0, 0, 0), 31, 9, 31)
    ensures Sane(CUT_EXAMPLE.profile)
  {
  }

  lemma ExampleBlocks(c: Poi)
    requires c == Poi(Outpost, 37, 37, 0, 0, 8, 36)
    ensures PoiBlock(CUT_EXAMPLE, c, 31, 9, 31) == Some(2)
    ensures TerrainBlock(CUT_EXAMPLE, 31, 9, 31) == 3
  {
    assert SampleHeight(CUT_EXAMPLE, 37, 37) == 10 && SampleHeight(CUT_EXAMPLE, 31, 31) == 10;
    assert FloorY(CUT_EXAMPLE, c) == 9;
    assert OutpostBlock(-6, 0, -6) == Some(2);
  }

  lemma ExampleWriterIsAlone(c: Poi, d: Poi)
    requires c == Poi(Outpost, 37, 37, 0, 0, 8, 36)
    requires IsCandidate(d, CUT_EXAMPLE.profile, CUT_EXAMPLE.noise) && Writes(CUT_EXAMPLE, d, 31, 9, 31)
    ensures d == c
  {
    ExampleCandidates(d.cellX, d.cellZ);
    WithinReach(CUT_EXAMPLE, d);
  }

  lemma WithinReach(g: Gen, d: Poi)
    requires d.kind == Outpost && Writes(g, d, 31, 9, 31)
    ensures 25 <= d.centerX <= 37 && 25 <= d.centerZ <= 37
  {
  }
}
