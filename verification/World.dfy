/** shared/src/voxel/World.cpp, lines 436-622: the map of generated chunks. */
module VoxelWorld {
  import opened Prelude
  import opened WorldProfile
  import opened PoiGrid
  import opened ChunkStore
  import opened PoiStamps
  import opened WorldReference

  /** What the world shows at a position: nothing where no chunk is loaded. */
  function BlockIn(picture: map<ChunkCoord, Blocks>, x: int, y: int, z: int): Option<BlockId> {
    var k := ChunkAt(x, y, z);
    if x < 0 || y < 0 || z < 0 || k !in picture then None else Some(At(picture[k], k, x, y, z))
  }

  /** The chunk a world position belongs to. */
  function ChunkAt(x: int, y: int, z: int): ChunkCoord {
    ChunkCoord(FloorDiv(x, CHUNK_SIZE), FloorDiv(y, CHUNK_SIZE), FloorDiv(z, CHUNK_SIZE))
  }

  /** Every position lies in exactly one chunk. */
  lemma ChunkAtIsTheChunk(x: int, y: int, z: int, k: ChunkCoord)
    ensures InChunk(k, x, y, z) <==> k == ChunkAt(x, y, z)
  {
    FloorDivIsFloor(x, CHUNK_SIZE, k.x);
    FloorDivIsFloor(y, CHUNK_SIZE, k.y);
    FloorDivIsFloor(z, CHUNK_SIZE, k.z);
  }

  /** The loaded chunks and the greatest height asked for so far, as a value. */
  datatype Loading = Loading(picture: map<ChunkCoord, Blocks>, top: int)

  function Raised(top: int, height: int): int { if height > 0 then Max(top, height) else top }

  /** What a request for a chunk does: it may raise the top, and generates the chunk under that top if it is missing. */
  ghost predicate Requested(profile: Profile, noise: Noise, a: Loading, b: Loading, k: ChunkCoord, height: int) {
    && b.top == Raised(a.top, height)
    && k in b.picture && b.picture == a.picture[k := b.picture[k]]
    && (if k in a.picture then b.picture[k] == a.picture[k] else Generated(Gen(profile, noise, b.top), k, b.picture[k]))
  }

  class World {
    const noise: Noise
    var chunks: map<ChunkCoord, Chunk>
    var maxHeight: int
    var profile: Profile

    ghost predicate Valid()
      reads this
    {
      && Sane(profile)
      && (forall k :: k in chunks ==> chunks[k].Valid())
      && (forall j, k :: j in chunks && k in chunks && j != k ==> chunks[j].cells != chunks[k].cells)
    }

    ghost function Cells(): set<object>
      reads this
    {
      set k | k in chunks :: chunks[k].cells
    }

    /** The contents of every loaded chunk. */
    ghost function Picture(): map<ChunkCoord, Blocks>
      requires Valid()
      reads this, Cells()
    {
      map k | k in chunks :: chunks[k].Contents()
    }

    ghost function Generator(): Gen
      reads this
    {
      Gen(profile, noise, maxHeight)
    }

    constructor (noise: Noise)
      ensures Valid() && Picture() == map[]
      ensures this.noise == noise && maxHeight == 0 && profile == DEFAULT_PROFILE
    {
      this.noise := noise;
      chunks := map[];
      maxHeight := 0;
      profile := DEFAULT_PROFILE;
    }

    method Clear()
      requires Valid()
      modifies this`chunks
      ensures Valid() && Picture() == map[]
    {
      chunks := map[];
    }

    method SetGenerationProfile(p: Profile)
      requires Valid()
      modifies this`profile
      ensures Valid() && profile == Sanitize(p) && Picture() == old(Picture())
    {
      profile := Sanitize(p);
    }

    method EnsureGeneratedChunk(k: ChunkCoord, height: int) returns (chunk: Chunk)
      requires Valid()
      modifies this`chunks, this`maxHeight
      ensures Valid()
      ensures maxHeight == if height > 0 then Max(old(maxHeight), height) else old(maxHeight)
      ensures k in chunks && chunk.Valid()
      ensures Picture() == old(Picture())[k := Picture()[k]]
      ensures if k in old(chunks) then Picture()[k] == old(Picture())[k]
              else fresh(chunk.cells) && Generated(Generator(), k, chunk.Contents())
      ensures chunks == old(chunks)[k := chunk] && (k in old(chunks) ==> chunk == old(chunks)[k])
      ensures profile == old(profile)
      ensures Requested(profile, noise, old(Loading(Picture(), maxHeight)), Loading(Picture(), maxHeight), k, height)
    {
      hide Generated, Sane, Valid;
      RaiseTop(height);
      if k in chunks {
        chunk := Loaded(k);
      } else {
        chunk := Load(k);
      }
    }

    method RaiseTop(height: int)
      requires Valid()
      modifies this`maxHeight
      ensures Valid() && Picture() == old(Picture())
      ensures maxHeight == if height > 0 then Max(old(maxHeight), height) else old(maxHeight)
    {
      if height > 0 {
        maxHeight := Max(maxHeight, height);
      }
    }

    method Loaded(k: ChunkCoord) returns (chunk: Chunk)
      requires Valid() && k in chunks
      ensures chunk == chunks[k] && chunk.Valid() && k in Picture()
      ensures chunks == chunks[k := chunk] && Picture() == Picture()[k := Picture()[k]]
    {
      chunk := chunks[k];
    }

    method Load(k: ChunkCoord) returns (chunk: Chunk)
      requires Valid() && k !in chunks
      modifies this`chunks
      ensures Valid() && chunk.Valid() && chunks == old(chunks)[k := chunk] && fresh(chunk.cells)
      ensures Generated(Generator(), k, chunk.Contents())
      ensures Picture() == old(Picture())[k := chunk.Contents()]
    {
      hide Generated, Sane;
      chunk := BuildChunk(k);
      Adopt(k, chunk);
    }

    method Adopt(k: ChunkCoord, chunk: Chunk)
      requires Valid() && k !in chunks && chunk.Valid() && chunk.cells !in Cells()
      modifies this`chunks
      ensures Valid() && chunks == old(chunks)[k := chunk]
      ensures Picture() == old(Picture())[k := chunk.Contents()]
    {
      chunks := chunks[k := chunk];
    }

    method BuildChunk(k: ChunkCoord) returns (chunk: Chunk)
      requires Valid()
      ensures chunk.Valid() && fresh(chunk.cells)
      ensures Generated(Generator(), k, chunk.Contents())
    {
      chunk := new Chunk();
      var g := Gen(profile, noise, maxHeight);
      PaintTerrain(chunk, k, g);
      var pois := GatherChunkCandidates(k.x, k.z, profile, noise);
      for i := 0 to |pois|
        invariant forall x, y, z :: InChunk(k, x, y, z) ==>
                    At(chunk.Contents(), k, x, y, z) == PaintOver(g, pois[..i], x, y, z, TerrainBlock(g, x, y, z))
      {
        Stamp(chunk, k, g, pois[i]);
        assert pois[..i + 1][..i] == pois[..i];
      }
      assert pois[..|pois|] == pois;
      assert PaintedWith(g, k, pois, chunk.Contents());
    }

    method RemoveChunk(k: ChunkCoord) returns (removed: bool)
      requires Valid()
      modifies this`chunks
      ensures Valid() && Picture() == old(Picture()) - {k}
      ensures removed <==> k in old(chunks)
      ensures chunks == old(chunks) - {k}
    {
      removed := k in chunks;
      chunks := chunks - {k};
    }

    /** Fills the box of chunks with generated blocks; the loop order leaves no trace in the result. */
    method Generate(chunksX: int, chunksZ: int, height: int, p: Profile)
      requires Valid()
      modifies this`chunks, this`maxHeight, this`profile
      ensures Valid() && profile == Sanitize(p) && maxHeight == height
      ensures forall k :: k in chunks <==> 0 <= k.x < chunksX && 0 <= k.z < chunksZ && 0 <= k.y && k.y * CHUNK_SIZE < height
      ensures forall k :: k in chunks ==> Generated(Gen(Sanitize(p), noise, height), k, Picture()[k])
      ensures fresh(Cells())
    {
      chunks := map[];
      profile := Sanitize(p);
      maxHeight := height;
      var chunksY := TruncDiv(height + CHUNK_SIZE - 1, CHUNK_SIZE);
      var cy := 0;
      while cy < chunksY
        invariant Filled(chunksX, chunksZ, cy, 0, 0) && Fixed(p, height) && fresh(Cells())
        invariant 0 <= cy && (chunksY < 0 || cy <= chunksY) && (cy > chunksY ==> cy == 0)
      {
        var cz := 0;
        while cz < chunksZ
          invariant Filled(chunksX, chunksZ, cy, cz, 0) && Fixed(p, height) && fresh(Cells())
          invariant 0 <= cz && (cz > 0 ==> cz <= chunksZ)
        {
          var cx := 0;
          while cx < chunksX
            invariant Filled(chunksX, chunksZ, cy, cz, cx) && Fixed(p, height) && fresh(Cells())
            invariant 0 <= cx && (cx > 0 ==> cx <= chunksX)
          {
            FillNext(chunksX, chunksZ, cy, cz, cx, height, p);
            cx := cx + 1;
          }
          cz := cz + 1;
        }
        cy := cy + 1;
      }
    }

    method FillNext(chunksX: int, chunksZ: int, cy: int, cz: int, cx: int, height: int, p: Profile)
      requires Filled(chunksX, chunksZ, cy, cz, cx) && Fixed(p, height)
      requires 0 <= cx < chunksX && 0 <= cz < chunksZ && 0 <= cy
      modifies this`chunks, this`maxHeight
      ensures Filled(chunksX, chunksZ, cy, cz, cx + 1) && Fixed(p, height)
      ensures fresh(Cells() - old(Cells()))
    {
      var k := ChunkCoord(cx, cy, cz);
      var chunk := EnsureGeneratedChunk(k, height);
    }

    /** The layers below cy, the rows of layer cy before cz, and row cz before cx are loaded, and nothing else. */
    ghost predicate Filled(chunksX: int, chunksZ: int, cy: int, cz: int, cx: int)
      reads this
    {
      forall k :: k in chunks <==>
        && 0 <= k.x < chunksX && 0 <= k.z < chunksZ && 0 <= k.y
        && (k.y < cy || (k.y == cy && (k.z < cz || (k.z == cz && k.x < cx))))
    }

    ghost predicate Fixed(p: Profile, height: int)
      reads this, Cells()
    {
      && Valid() && profile == Sanitize(p) && maxHeight == height
      && forall k :: k in chunks ==> Generated(Gen(Sanitize(p), noise, height), k, Picture()[k])
    }

    method BlockAt(x: int, y: int, z: int) returns (id: Option<BlockId>)
      requires Valid()
      ensures id == BlockIn(Picture(), x, y, z)
    {
      if x < 0 || y < 0 || z < 0 {
        return None;
      }
      var k := ChunkCoord(TruncDiv(x, CHUNK_SIZE), TruncDiv(y, CHUNK_SIZE), TruncDiv(z, CHUNK_SIZE));
      if k !in chunks {
        return None;
      }
      return Some(chunks[k].Get(TruncRem(x, CHUNK_SIZE), TruncRem(y, CHUNK_SIZE), TruncRem(z, CHUNK_SIZE)));
    }

    /** Writes one block of a loaded chunk and no other block of the world. */
    method SetBlock(x: int, y: int, z: int, id: BlockId) returns (ok: bool)
      requires Valid()
      modifies Cells()
      ensures Valid()
      ensures ok <==> old(BlockIn(Picture(), x, y, z)).Some?
      ensures forall a, b, c :: BlockIn(Picture(), a, b, c) ==
                if ok && a == x && b == y && c == z then Some(id) else old(BlockIn(Picture(), a, b, c))
    {
      if x < 0 || y < 0 || z < 0 {
        return false;
      }
      var k := ChunkCoord(TruncDiv(x, CHUNK_SIZE), TruncDiv(y, CHUNK_SIZE), TruncDiv(z, CHUNK_SIZE));
      if k !in chunks {
        return false;
      }
      chunks[k].Set(TruncRem(x, CHUNK_SIZE), TruncRem(y, CHUNK_SIZE), TruncRem(z, CHUNK_SIZE), id);
      forall a, b, c
        ensures BlockIn(Picture(), a, b, c) == if a == x && b == y && c == z then Some(id) else old(BlockIn(Picture(), a, b, c))
      {
        ChunkAtIsTheChunk(a, b, c, ChunkAt(a, b, c));
      }
      return true;
    }
  }
}
