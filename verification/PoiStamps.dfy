/** shared/src/voxel/World.cpp, lines 88-97 and 279-387: terrain and what each point of interest paints. */
module PoiStamps {
  import opened Prelude
  import opened WorldProfile
  import opened PoiGrid
  import opened ChunkStore

  datatype ChunkCoord = ChunkCoord(x: int, y: int, z: int)

  /** Everything block generation depends on. */
  datatype Gen = Gen(profile: Profile, noise: Noise, maxHeight: int)

  predicate InChunk(k: ChunkCoord, x: int, y: int, z: int) {
    IsInside(x - k.x * CHUNK_SIZE, y - k.y * CHUNK_SIZE, z - k.z * CHUNK_SIZE)
  }

  /** The block a chunk holds at a world position. */
  function At(s: Blocks, k: ChunkCoord, x: int, y: int, z: int): BlockId {
    BlockOf(s, x - k.x * CHUNK_SIZE, y - k.y * CHUNK_SIZE, z - k.z * CHUNK_SIZE)
  }

  function SampleHeight(g: Gen, x: int, z: int): int {
    if g.maxHeight <= 0 then 0 else Clamp(g.noise.height(x, z, g.maxHeight), 1, g.maxHeight)
  }

  function TerrainBlock(g: Gen, x: int, y: int, z: int): BlockId {
    var height := SampleHeight(g, x, z);
    if y < height - 3 then 2 else if y < height - 1 then 1 else if y < height then 3 else 0
  }

  // ---------------------------------------------------------------------------------------------
  // What one point of interest leaves at a position, as an offset (u, h, v) from the middle of its
  // floor: the last of its writes there, or None when it never writes there.
  // ---------------------------------------------------------------------------------------------

  predicate OutpostShell(u: int, h: int, v: int) {
    && -6 <= u <= 6 && -6 <= v <= 6
    && (h == 0 || (1 <= h <= 3 && (u == 6 || u == -6 || v == 6 || v == -6)))
  }

  function OutpostBlock(u: int, h: int, v: int): Option<BlockId> {
    if u == 5 && v == 5 && h == 7 then Some(3)
    else if u == 5 && v == 5 && 1 <= h <= 6 then Some(2)
    else if -1 <= u <= 1 && v == -6 && 1 <= h <= 2 then Some(0)
    else if OutpostShell(u, h, v) then Some(2)
    else None
  }

  /** `standing` tells whether the wall segment over this column has not crumbled. */
  function RuinsBlock(u: int, h: int, v: int, standing: bool): Option<BlockId> {
    if !(-5 <= u <= 5 && -5 <= v <= 5) then None
    else if u != 5 && u != -5 && v != 5 && v != -5 then
      if h == 0 then Some(if (u + v) % 2 == 0 then 2 else 1) else None
    else if standing && 1 <= h <= 2 then Some(2)
    else None
  }

  predicate Cardinal(u: int, v: int) {
    (u == 3 && v == 0) || (u == -3 && v == 0) || (u == 0 && v == 3) || (u == 0 && v == -3)
  }

  function ShrineBlock(u: int, h: int, v: int): Option<BlockId> {
    if Cardinal(u, v) && h == 1 then Some(3)
    else if u == 0 && v == 0 && h == 4 then Some(3)
    else if u == 0 && v == 0 && 1 <= h <= 3 then Some(2)
    else if -3 <= u <= 3 && -3 <= v <= 3 && u * u + v * v <= 10 && h == 0 then Some(2)
    else None
  }

  function Standing(g: Gen, x: int, z: int): bool {
    g.noise.hash(g.profile.seed, x, z, 0xC2B2AE3D) % 4 != 0
  }

  function FloorY(g: Gen, c: Poi): int {
    Clamp(SampleHeight(g, c.centerX, c.centerZ) - 1, 0, Max(0, g.maxHeight - 1))
  }

  predicate Writable(g: Gen, x: int, y: int, z: int) {
    x >= 0 && y >= 0 && z >= 0 && y < g.maxHeight
  }

  /** The block a point of interest leaves at a world position. */
  function PoiBlock(g: Gen, c: Poi, x: int, y: int, z: int): Option<BlockId> {
    var u, h, v := x - c.centerX, y - FloorY(g, c), z - c.centerZ;
    if !Writable(g, x, y, z) then None
    else match c.kind
      case Outpost => OutpostBlock(u, h, v)
      case Ruins => RuinsBlock(u, h, v, Standing(g, x, z))
      case LootShrine => ShrineBlock(u, h, v)
  }

  function Over(top: Option<BlockId>, below: BlockId): BlockId {
    match top
    case Some(id) => id
    case None => below
  }

  // ---------------------------------------------------------------------------------------------
  // The loops that write into one chunk
  // ---------------------------------------------------------------------------------------------

  method SetBlockIfInChunk(chunk: Chunk, k: ChunkCoord, g: Gen, x: int, y: int, z: int, id: BlockId)
    requires chunk.Valid()
    modifies chunk.cells
    ensures forall a, b, c :: InChunk(k, a, b, c) ==>
              At(chunk.Contents(), k, a, b, c) ==
              if a == x && b == y && c == z && Writable(g, x, y, z) then id else old(At(chunk.Contents(), k, a, b, c))
  {
    if x < 0 || y < 0 || z < 0 || y >= g.maxHeight {
      return;
    }
    if TruncDiv(x, CHUNK_SIZE) != k.x || TruncDiv(y, CHUNK_SIZE) != k.y || TruncDiv(z, CHUNK_SIZE) != k.z {
      return;
    }
    chunk.Set(TruncRem(x, CHUNK_SIZE), TruncRem(y, CHUNK_SIZE), TruncRem(z, CHUNK_SIZE), id);
    forall a, b, c | InChunk(k, a, b, c)
      ensures At(chunk.Contents(), k, a, b, c) ==
              if a == x && b == y && c == z then id else old(At(chunk.Contents(), k, a, b, c))
    {
      var u, v, w := a - k.x * CHUNK_SIZE, b - k.y * CHUNK_SIZE, c - k.z * CHUNK_SIZE;
      assert IsInside(u, v, w);
    }
  }

  /** The inner `for h` loops: one block id over a run of heights in one column. */
  method FillColumn(chunk: Chunk, k: ChunkCoord, g: Gen, x: int, z: int, lo: int, hi: int, id: BlockId)
    requires chunk.Valid() && lo <= hi
    modifies chunk.cells
    ensures forall a, b, c :: InChunk(k, a, b, c) ==>
              At(chunk.Contents(), k, a, b, c) ==
              if a == x && c == z && lo <= b <= hi && Writable(g, a, b, c) then id
              else old(At(chunk.Contents(), k, a, b, c))
  {
    for y := lo to hi + 1
      invariant forall a, b, c :: InChunk(k, a, b, c) ==>
                  At(chunk.Contents(), k, a, b, c) ==
                  if a == x && c == z && lo <= b < y && Writable(g, a, b, c) then id
                  else old(At(chunk.Contents(), k, a, b, c))
    {
      SetBlockIfInChunk(chunk, k, g, x, y, z, id);
    }
  }

  /** Rows before dz, and row dz before dx, of the square around a center. */
  predicate RowsDone(u: int, v: int, dz: int, dx: int) { v < dz || (v == dz && u < dx) }

  method StampOutpostShell(chunk: Chunk, k: ChunkCoord, g: Gen, c: Poi, floorY: int)
    requires chunk.Valid()
    modifies chunk.cells
    ensures forall x, y, z :: InChunk(k, x, y, z) ==>
              At(chunk.Contents(), k, x, y, z) ==
              if Writable(g, x, y, z) && OutpostShell(x - c.centerX, y - floorY, z - c.centerZ) then 2
              else old(At(chunk.Contents(), k, x, y, z))
  {
    for dz := -6 to 7
      invariant forall x, y, z :: InChunk(k, x, y, z) ==>
                  At(chunk.Contents(), k, x, y, z) ==
                  if Writable(g, x, y, z) && OutpostShell(x - c.centerX, y - floorY, z - c.centerZ)
                     && RowsDone(x - c.centerX, z - c.centerZ, dz, -6) then 2
                  else old(At(chunk.Contents(), k, x, y, z))
    {
      for dx := -6 to 7
        invariant forall x, y, z :: InChunk(k, x, y, z) ==>
                    At(chunk.Contents(), k, x, y, z) ==
                    if Writable(g, x, y, z) && OutpostShell(x - c.centerX, y - floorY, z - c.centerZ)
                       && RowsDone(x - c.centerX, z - c.centerZ, dz, dx) then 2
                    else old(At(chunk.Contents(), k, x, y, z))
      {
        SetBlockIfInChunk(chunk, k, g, c.centerX + dx, floorY, c.centerZ + dz, 2);
        if dx == 6 || dx == -6 || dz == 6 || dz == -6 {
          FillColumn(chunk, k, g, c.centerX + dx, c.centerZ + dz, floorY + 1, floorY + 3, 2);
        }
      }
    }
  }

  method StampOutpost(chunk: Chunk, k: ChunkCoord, g: Gen, c: Poi)
    requires chunk.Valid() && c.kind == Outpost
    modifies chunk.cells
    ensures forall x, y, z :: InChunk(k, x, y, z) ==>
              At(chunk.Contents(), k, x, y, z) == Over(PoiBlock(g, c, x, y, z), old(At(chunk.Contents(), k, x, y, z)))
  {
    var floorY := FloorY(g, c);
    StampOutpostShell(chunk, k, g, c, floorY);
    for gateX := -1 to 2
      invariant forall x, y, z :: InChunk(k, x, y, z) ==>
                  At(chunk.Contents(), k, x, y, z) ==
                  var u, h, v := x - c.centerX, y - floorY, z - c.centerZ;
                  if Writable(g, x, y, z) && -1 <= u < gateX && v == -6 && 1 <= h <= 2 then 0
                  else if Writable(g, x, y, z) && OutpostShell(u, h, v) then 2
                  else old(At(chunk.Contents(), k, x, y, z))
    {
      FillColumn(chunk, k, g, c.centerX + gateX, c.centerZ - 6, floorY + 1, floorY + 2, 0);
    }
    FillColumn(chunk, k, g, c.centerX + 5, c.centerZ + 5, floorY + 1, floorY + 6, 2);
    SetBlockIfInChunk(chunk, k, g, c.centerX + 5, floorY + 7, c.centerZ + 5, 3);
  }

  method StampRuins(chunk: Chunk, k: ChunkCoord, g: Gen, c: Poi)
    requires chunk.Valid() && c.kind == Ruins
    modifies chunk.cells
    ensures forall x, y, z :: InChunk(k, x, y, z) ==>
              At(chunk.Contents(), k, x, y, z) == Over(PoiBlock(g, c, x, y, z), old(At(chunk.Contents(), k, x, y, z)))
  {
    var floorY := FloorY(g, c);
    for dz := -5 to 6
      invariant forall x, y, z :: InChunk(k, x, y, z) ==>
                  At(chunk.Contents(), k, x, y, z) ==
                  if RowsDone(x - c.centerX, z - c.centerZ, dz, -5)
                  then Over(PoiBlock(g, c, x, y, z), old(At(chunk.Contents(), k, x, y, z)))
                  else old(At(chunk.Contents(), k, x, y, z))
    {
      for dx := -5 to 6
        invariant forall x, y, z :: InChunk(k, x, y, z) ==>
                    At(chunk.Contents(), k, x, y, z) ==
                    if RowsDone(x - c.centerX, z - c.centerZ, dz, dx)
                    then Over(PoiBlock(g, c, x, y, z), old(At(chunk.Contents(), k, x, y, z)))
                    else old(At(chunk.Contents(), k, x, y, z))
      {
        var x, z := c.centerX + dx, c.centerZ + dz;
        if dx != 5 && dx != -5 && dz != 5 && dz != -5 {
          SetBlockIfInChunk(chunk, k, g, x, floorY, z, if (dx + dz) % 2 == 0 then 2 else 1);
        } else if Standing(g, x, z) {
          FillColumn(chunk, k, g, x, z, floorY + 1, floorY + 2, 2);
        }
      }
    }
  }

  method StampShrineFloor(chunk: Chunk, k: ChunkCoord, g: Gen, c: Poi, floorY: int)
    requires chunk.Valid()
    modifies chunk.cells
    ensures forall x, y, z :: InChunk(k, x, y, z) ==>
              At(chunk.Contents(), k, x, y, z) ==
              var u, v := x - c.centerX, z - c.centerZ;
              if Writable(g, x, y, z) && y == floorY && -3 <= u <= 3 && -3 <= v <= 3 && u * u + v * v <= 10 then 2
              else old(At(chunk.Contents(), k, x, y, z))
  {
    for dz := -3 to 4
      invariant forall x, y, z :: InChunk(k, x, y, z) ==>
                  At(chunk.Contents(), k, x, y, z) ==
                  var u, v := x - c.centerX, z - c.centerZ;
                  if Writable(g, x, y, z) && y == floorY && -3 <= u <= 3 && -3 <= v <= 3 && u * u + v * v <= 10
                     && RowsDone(u, v, dz, -3) then 2
                  else old(At(chunk.Contents(), k, x, y, z))
    {
      for dx := -3 to 4
        invariant forall x, y, z :: InChunk(k, x, y, z) ==>
                    At(chunk.Contents(), k, x, y, z) ==
                    var u, v := x - c.centerX, z - c.centerZ;
                    if Writable(g, x, y, z) && y == floorY && -3 <= u <= 3 && -3 <= v <= 3 && u * u + v * v <= 10
                       && RowsDone(u, v, dz, dx) then 2
                    else old(At(chunk.Contents(), k, x, y, z))
      {
        if dx * dx + dz * dz <= 10 {
          SetBlockIfInChunk(chunk, k, g, c.centerX + dx, floorY, c.centerZ + dz, 2);
        }
      }
    }
  }

  method StampLootShrine(chunk: Chunk, k: ChunkCoord, g: Gen, c: Poi)
    requires chunk.Valid() && c.kind == LootShrine
    modifies chunk.cells
    ensures forall x, y, z :: InChunk(k, x, y, z) ==>
              At(chunk.Contents(), k, x, y, z) == Over(PoiBlock(g, c, x, y, z), old(At(chunk.Contents(), k, x, y, z)))
  {
    var floorY := FloorY(g, c);
    StampShrineFloor(chunk, k, g, c, floorY);
    FillColumn(chunk, k, g, c.centerX, c.centerZ, floorY + 1, floorY + 3, 2);
    SetBlockIfInChunk(chunk, k, g, c.centerX, floorY + 4, c.centerZ, 3);
    SetBlockIfInChunk(chunk, k, g, c.centerX + 3, floorY + 1, c.centerZ, 3);
    SetBlockIfInChunk(chunk, k, g, c.centerX - 3, floorY + 1, c.centerZ, 3);
    SetBlockIfInChunk(chunk, k, g, c.centerX, floorY + 1, c.centerZ + 3, 3);
    SetBlockIfInChunk(chunk, k, g, c.centerX, floorY + 1, c.centerZ - 3, 3);
  }

  method Stamp(chunk: Chunk, k: ChunkCoord, g: Gen, c: Poi)
    requires chunk.Valid()
    modifies chunk.cells
    ensures forall x, y, z :: InChunk(k, x, y, z) ==>
              At(chunk.Contents(), k, x, y, z) == Over(PoiBlock(g, c, x, y, z), old(At(chunk.Contents(), k, x, y, z)))
  {
    match c.kind {
      case Outpost => StampOutpost(chunk, k, g, c);
      case Ruins => StampRuins(chunk, k, g, c);
      case LootShrine => StampLootShrine(chunk, k, g, c);
    }
  }

  method PaintTerrain(chunk: Chunk, k: ChunkCoord, g: Gen)
    requires chunk.Valid()
    modifies chunk.cells
    ensures forall x, y, z :: InChunk(k, x, y, z) ==> At(chunk.Contents(), k, x, y, z) == TerrainBlock(g, x, y, z)
  {
    var x0, y0, z0 := k.x * CHUNK_SIZE, k.y * CHUNK_SIZE, k.z * CHUNK_SIZE;
    for z := 0 to CHUNK_SIZE
      invariant forall a, b, c :: InChunk(k, a, b, c) && c - z0 < z ==> At(chunk.Contents(), k, a, b, c) == TerrainBlock(g, a, b, c)
    {
      for x := 0 to CHUNK_SIZE
        invariant forall a, b, c :: InChunk(k, a, b, c) && RowsDone(a - x0, c - z0, z, x) ==>
                    At(chunk.Contents(), k, a, b, c) == TerrainBlock(g, a, b, c)
      {
        var height := SampleHeight(g, x0 + x, z0 + z);
        for y := 0 to CHUNK_SIZE
          invariant forall a, b, c :: InChunk(k, a, b, c) && RowsDone(a - x0, c - z0, z, x) ==>
                      At(chunk.Contents(), k, a, b, c) == TerrainBlock(g, a, b, c)
          invariant forall a, b, c :: InChunk(k, a, b, c) && a == x0 + x && c == z0 + z && b - y0 < y ==>
                      At(chunk.Contents(), k, a, b, c) == TerrainBlock(g, a, b, c)
        {
          var worldY := y0 + y;
          var id: BlockId := 0;
          if worldY < height - 3 {
            id := 2;
          } else if worldY < height - 1 {
            id := 1;
          } else if worldY < height {
            id := 3;
          }
          chunk.Set(x, y, z, id);
        }
      }
    }
  }
}
