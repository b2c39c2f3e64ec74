/** shared/src/voxel/Chunk.cpp: 32 x 32 x 32 blocks in one flat array. */
module ChunkStore {
  import opened Prelude
  import opened WorldProfile

  type BlockId = b: nat | b < 256

  const CHUNK_VOLUME := CHUNK_SIZE * CHUNK_SIZE * CHUNK_SIZE

  function Index(x: int, y: int, z: int): int { x + y * CHUNK_SIZE + z * CHUNK_SIZE * CHUNK_SIZE }

  predicate IsInside(x: int, y: int, z: int) {
    0 <= x < CHUNK_SIZE && 0 <= y < CHUNK_SIZE && 0 <= z < CHUNK_SIZE
  }

  /** Every slot of the array is the home of exactly one block position. */
  lemma IndexIsBijection(i: int)
    requires 0 <= i < CHUNK_VOLUME
    ensures forall x, y, z :: IsInside(x, y, z) ==>
              (Index(x, y, z) == i <==> x == i % 32 && y == i / 32 % 32 && z == i / 1024)
    ensures IsInside(i % 32, i / 32 % 32, i / 1024)
  {
  }

  lemma IndexInRange(x: int, y: int, z: int)
    requires IsInside(x, y, z)
    ensures 0 <= Index(x, y, z) < CHUNK_VOLUME
  {
  }

  lemma IndexInjective(x: int, y: int, z: int, u: int, v: int, w: int)
    requires IsInside(x, y, z) && IsInside(u, v, w)
    ensures Index(x, y, z) == Index(u, v, w) <==> x == u && y == v && z == w
  {
  }

  /** Contents of a chunk as a value. */
  type Blocks = s: seq<BlockId> | |s| == CHUNK_VOLUME witness seq(CHUNK_VOLUME, i => 0)

  function BlockOf(s: Blocks, x: int, y: int, z: int): BlockId {
    if IsInside(x, y, z) then IndexInRange(x, y, z); s[Index(x, y, z)] else 0
  }

  /** Two chunks that agree at every position are the same chunk. */
  lemma SameBlocks(a: Blocks, b: Blocks)
    requires forall x, y, z :: IsInside(x, y, z) ==> BlockOf(a, x, y, z) == BlockOf(b, x, y, z)
    ensures a == b
  {
    forall i | 0 <= i < CHUNK_VOLUME ensures a[i] == b[i] {
      IndexIsBijection(i);
      assert BlockOf(a, i % 32, i / 32 % 32, i / 1024) == BlockOf(b, i % 32, i / 32 % 32, i / 1024);
    }
  }

  class Chunk {
    const cells: array<BlockId>

    ghost predicate Valid() { cells.Length == CHUNK_VOLUME }

    ghost function Contents(): Blocks
      requires Valid()
      reads cells
    {
      cells[..]
    }

    constructor ()
      ensures Valid() && fresh(cells)
      ensures forall x, y, z :: BlockOf(Contents(), x, y, z) == 0
    {
      cells := new BlockId[CHUNK_VOLUME](i => 0);
      new;
      forall x, y, z ensures BlockOf(Contents(), x, y, z) == 0 {
        if IsInside(x, y, z) { IndexInRange(x, y, z); }
      }
    }

    function Get(x: int, y: int, z: int): (id: BlockId)
      requires Valid()
      reads cells
      ensures id == BlockOf(Contents(), x, y, z)
    {
      if IsInside(x, y, z) then IndexInRange(x, y, z); cells[Index(x, y, z)] else 0
    }

    method Set(x: int, y: int, z: int, id: BlockId)
      requires Valid()
      modifies cells
      ensures forall u, v, w :: IsInside(u, v, w) ==>
                BlockOf(Contents(), u, v, w) ==
                if u == x && v == y && w == z then id else old(BlockOf(Contents(), u, v, w))
    {
      if !IsInside(x, y, z) {
        return;
      }
      IndexInRange(x, y, z);
      cells[Index(x, y, z)] := id;
      forall u, v, w | IsInside(u, v, w)
        ensures BlockOf(Contents(), u, v, w) ==
                if u == x && v == y && w == z then id else old(BlockOf(Contents(), u, v, w))
      {
        IndexInRange(u, v, w);
        IndexInjective(x, y, z, u, v, w);
      }
    }
  }
}
