/** Which chunks a player is sent, in blocks (server/src/WorldReplication.cpp, lines 151-204). */
module Interest {
  import opened Prelude
  import opened Reals
  import opened WorldProfile
  import opened PoiStamps
  import opened Replication

  /** The column of chunks a position on the map lies in. */
  predicate Holds(chunk: int, axis: real) { (chunk * 32) as real <= axis < ((chunk + 1) * 32) as real }

  lemma CenterHolds(axis: real, chunks: int)
    requires 0.0 <= axis < (chunks * 32) as real
    ensures Holds(CenterChunk(axis, chunks), axis) && 0 <= CenterChunk(axis, chunks) < chunks
  {
    var q := (axis / 32.0).Floor;
    assert q as real <= axis / 32.0 < (q + 1) as real;
    assert (q * 32) as real <= axis < ((q + 1) * 32) as real;
  }

  /** On the map every loaded chunk of the column a player stands in is relevant to it. */
  lemma OwnChunkIsRelevant(c: Config, x: real, z: real, loaded: set<ChunkCoord>, k: ChunkCoord)
    requires SaneConfig(c) && 0.0 <= x < (c.chunksX * 32) as real && 0.0 <= z < (c.chunksZ * 32) as real
    requires k in loaded && 0 <= k.y < c.chunksY && Holds(k.x, x) && Holds(k.z, z)
    ensures k in Relevant(c, x, z, loaded)
  {
    CenterHolds(x, c.chunksX);
    CenterHolds(z, c.chunksZ);
    OneHolds(x, k.x, CenterChunk(x, c.chunksX));
    OneHolds(z, k.z, CenterChunk(z, c.chunksZ));
    assert c.interestRadius * c.interestRadius >= 0;
  }

  lemma OneHolds(axis: real, a: int, b: int)
    requires Holds(a, axis) && Holds(b, axis)
    ensures a == b
  {
  }

  /** A block column, as seen from a player, lies this many blocks away, squared. */
  function BlocksSq(x: real, z: real, blockX: real, blockZ: real): real { Squared(blockX - x) + Squared(blockZ - z) }

  function Squared(a: real): real { a * a }

  /** So many chunks, in blocks, squared. */
  function ChunksSq(n: int): real { Squared(32.0 * n as real) }

  function Size(a: int): nat { if a < 0 then -a else a }

  function Gap(a: real): real { if a < 0.0 then -a else a }

  /** Positions in two columns are less than a chunk farther apart, or nearer together, than the columns. */
  lemma ColumnsAndBlocks(axis: real, block: real, center: int, chunk: int)
    requires Holds(center, axis) && Holds(chunk, block)
    ensures (Size(chunk - center) - 1) as real * 32.0 < Gap(block - axis) < (Size(chunk - center) + 1) as real * 32.0
  {
  }

  lemma GapSquare(a: real)
    ensures Squared(Gap(a)) == Squared(a) && Gap(a) >= 0.0
  {
  }

  lemma SizeSquare(a: int)
    ensures Size(a) * Size(a) == a * a
  {
  }

  lemma Grows(a: real, b: real)
    requires 0.0 <= a <= b
    ensures a * a <= b * b
  {
    if a < b { LongerIsLonger(b, a); }
  }

  /** In whole chunks: the disc's columns are within `radius` on each axis and squares add up to at most its square. */
  lemma DiscBySizes(c: Config, centerX: int, centerZ: int, k: ChunkCoord)
    requires c.interestRadius >= 0
    ensures var dx, dz := Size(k.x - centerX), Size(k.z - centerZ);
            InDisc(c, centerX, centerZ, k) <==> dx * dx + dz * dz <= c.interestRadius * c.interestRadius
  {
    SizeSquare(k.x - centerX);
    SizeSquare(k.z - centerZ);
    var dx, dz := Size(k.x - centerX), Size(k.z - centerZ);
    if dx * dx + dz * dz <= c.interestRadius * c.interestRadius {
      AtMost(dx, c.interestRadius, dz);
      AtMost(dz, c.interestRadius, dx);
    }
  }

  /**
   * A loaded chunk of the map is relevant to a player on the map exactly if the middle of its column is at most
   * 32 * interestRadius blocks from the middle of the player's own.
   */
  lemma RelevantByMiddles(c: Config, x: real, z: real, loaded: set<ChunkCoord>, own: ChunkCoord, k: ChunkCoord)
    requires SaneConfig(c) && 0.0 <= x < (c.chunksX * 32) as real && 0.0 <= z < (c.chunksZ * 32) as real
    requires Holds(own.x, x) && Holds(own.z, z) && k in loaded && InMap(c, k)
    ensures var dx, dz := (k.x * 32 + 16) - (own.x * 32 + 16), (k.z * 32 + 16) - (own.z * 32 + 16);
            k in Relevant(c, x, z, loaded) <==> dx * dx + dz * dz <= (32 * c.interestRadius) * (32 * c.interestRadius)
  {
    CenterHolds(x, c.chunksX);
    CenterHolds(z, c.chunksZ);
    OneHolds(x, own.x, CenterChunk(x, c.chunksX));
    OneHolds(z, own.z, CenterChunk(z, c.chunksZ));
    DiscBySizes(c, own.x, own.z, k);
    var dx, dz := k.x - own.x, k.z - own.z;
    SizeSquare(dx);
    SizeSquare(dz);
    assert (32 * dx) * (32 * dx) == 1024 * (dx * dx) && (32 * dz) * (32 * dz) == 1024 * (dz * dz);
    assert (32 * c.interestRadius) * (32 * c.interestRadius) == 1024 * (c.interestRadius * c.interestRadius);
  }

  /**
   * A chunk with a block nearer than 32 * (interestRadius - 2) blocks is sent, and one with a block as far as
   * 32 * (interestRadius + 2) is not.
   */
  lemma RelevantByBlocks(c: Config, x: real, z: real, loaded: set<ChunkCoord>, k: ChunkCoord, blockX: real, blockZ: real)
    requires SaneConfig(c) && 0.0 <= x < (c.chunksX * 32) as real && 0.0 <= z < (c.chunksZ * 32) as real
    requires k in loaded && InMap(c, k) && Holds(k.x, blockX) && Holds(k.z, blockZ)
    ensures c.interestRadius >= 2 && BlocksSq(x, z, blockX, blockZ) <= ChunksSq(c.interestRadius - 2) ==> k in Relevant(c, x, z, loaded)
    ensures BlocksSq(x, z, blockX, blockZ) >= ChunksSq(c.interestRadius + 2) ==> k !in Relevant(c, x, z, loaded)
  {
    hide InDisc, CenterChunk, Holds, Gap, Size, Squared, ChunksSq;
    var cx, cz := CenterChunk(x, c.chunksX), CenterChunk(z, c.chunksZ);
    CenterHolds(x, c.chunksX);
    CenterHolds(z, c.chunksZ);
    ColumnsAndBlocks(x, blockX, cx, k.x);
    ColumnsAndBlocks(z, blockZ, cz, k.z);
    DiscBySizes(c, cx, cz, k);
    GapSquare(blockX - x);
    GapSquare(blockZ - z);
    var dx, dz, gx, gz := Size(k.x - cx), Size(k.z - cz), Gap(blockX - x), Gap(blockZ - z);
    NearIsIn(dx, dz, gx, gz, c.interestRadius);
    FarIsOut(dx, dz, gx, gz, c.interestRadius);
  }

  /** With both gaps within the smaller radius, each column is at most that many chunks and one more away. */
  lemma NearIsIn(dx: nat, dz: nat, gx: real, gz: real, radius: int)
    requires radius >= 0 && gx >= 0.0 && gz >= 0.0
    requires (dx - 1) as real * 32.0 < gx && (dz - 1) as real * 32.0 < gz
    ensures radius >= 2 && Squared(gx) + Squared(gz) <= ChunksSq(radius - 2) ==> dx * dx + dz * dz <= radius * radius
  {
    var n := radius - 2;
    if radius >= 2 && Squared(gx) + Squared(gz) <= ChunksSq(n) {
      var a, b := if dx == 0 then 0 else dx - 1, if dz == 0 then 0 else dz - 1;
      NearInChunks(a, b, n, gx, gz);
      hide Squared, ChunksSq;
      AtMost(a, n, b);
      AtMost(b, n, a);
      OneMoreSquared(a, dx);
      OneMoreSquared(b, dz);
      assert radius * radius == n * n + 4 * n + 4;
    }
  }

  lemma OneMoreSquared(a: nat, d: nat)
    requires d <= a + 1
    ensures d * d <= a * a + 2 * a + 1
  {
    MulMono(d, a + 1, d);
    MulMono(d, a + 1, a + 1);
    assert (a + 1) * (a + 1) == a * a + 2 * a + 1;
  }

  lemma NearInChunks(a: nat, b: nat, n: int, gx: real, gz: real)
    requires n >= 0 && a as real * 32.0 <= gx && b as real * 32.0 <= gz && Squared(gx) + Squared(gz) <= ChunksSq(n)
    ensures a * a + b * b <= n * n
  {
    Grows(a as real * 32.0, gx);
    Grows(b as real * 32.0, gz);
    InChunks(a, b, n);
  }

  /** From squares of blocks to squares of chunks. */
  lemma InChunks(a: nat, b: nat, n: int)
    ensures (a as real * 32.0) * (a as real * 32.0) + (b as real * 32.0) * (b as real * 32.0) <= (32.0 * n as real) * (32.0 * n as real)
            <==> a * a + b * b <= n * n
  {
    Whole(a);
    Whole(b);
    Whole(n);
  }

  lemma Whole(a: int)
    ensures (a as real * 32.0) * (a as real * 32.0) == (1024 * (a * a)) as real
  {
    assert (a * a) as real == a as real * a as real;
  }

  lemma FarIsOut(dx: nat, dz: nat, gx: real, gz: real, radius: int)
    requires radius >= 0 && gx >= 0.0 && gz >= 0.0
    requires gx < (dx + 1) as real * 32.0 && gz < (dz + 1) as real * 32.0
    ensures Squared(gx) + Squared(gz) >= ChunksSq(radius + 2) ==> dx * dx + dz * dz > radius * radius
  {
    if Squared(gx) + Squared(gz) >= ChunksSq(radius + 2) && dx * dx + dz * dz <= radius * radius {
      Grows(gx, (dx + 1) as real * 32.0);
      Grows(gz, (dz + 1) as real * 32.0);
      AtMost(dx, radius, dz);
      AtMost(dz, radius, dx);
      OneMoreSquared(dx, dx + 1);
      OneMoreSquared(dz, dz + 1);
      assert (radius + 2) * (radius + 2) == radius * radius + 4 * radius + 4;
      StrictlyIn(dx + 1, dz + 1, radius + 2);
      assert false;
    }
  }

  lemma AtMost(a: nat, r: int, b: nat)
    requires r >= 0 && a * a + b * b <= r * r
    ensures a <= r
  {
    assert b * b >= 0;
    if a > r { MulMono(r + 1, a, a); MulMono(r + 1, a, r + 1); }
  }

  lemma StrictlyIn(a: nat, b: nat, n: int)
    requires a * a + b * b < n * n
    ensures (a as real * 32.0) * (a as real * 32.0) + (b as real * 32.0) * (b as real * 32.0) < (32.0 * n as real) * (32.0 * n as real)
  {
    Whole(a);
    Whole(b);
    Whole(n);
  }

  /** Every list of an update goes by x, then z, then y, and names no chunk twice. */
  lemma UpdatesGoByColumn(entries: seq<Entry>, m: map<ChunkCoord, nat>, i: nat, j: nat)
    requires Lists(entries, m) && i < j < |entries|
    ensures var a, b := entries[i].coord, entries[j].coord;
            a.x < b.x || (a.x == b.x && (a.z < b.z || (a.z == b.z && a.y < b.y)))
  {
    assert EntryLess(entries[i], entries[j]);
  }
}
