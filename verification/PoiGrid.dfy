/**
 * shared/src/voxel/World.cpp, lines 127-277 and 389-432: points of interest on the infinite cell
 * grid, the local spacing contest, and the list of points of interest one chunk has to paint.
 */
module PoiGrid {
  import opened Prelude
  import opened Sorting
  import opened WorldProfile

  datatype PoiType = Outpost | Ruins | LootShrine

  /** The noise the source computes from the seed: a 64-bit hash, and a raw terrain height. */
  datatype Noise = Noise(hash: (nat, int, int, nat) -> nat, height: (int, int, int) -> int)

  datatype Poi = Poi(kind: PoiType, centerX: int, centerZ: int, cellX: int, cellZ: int, radius: int, rank: nat)

  const MAX_RADIUS := 8

  // C++ integer division and remainder truncate toward zero.
  function TruncDiv(a: int, b: int): int
    requires b > 0
  {
    if a >= 0 then a / b else -((-a) / b)
  }

  function TruncRem(a: int, b: int): int
    requires b > 0
  {
    a - TruncDiv(a, b) * b
  }

  function FloorDiv(value: int, divisor: int): int {
    if divisor <= 0 then 0
    else
      var quotient := TruncDiv(value, divisor);
      var remainder := TruncRem(value, divisor);
      if remainder == 0 then quotient
      else if value < 0 then quotient - 1
      else quotient
  }

  /** The corrected truncating division is the floor: the one cell whose half-open span holds the value. */
  lemma FloorDivIsFloor(value: int, divisor: int, q: int)
    requires divisor > 0
    ensures FloorDiv(value, divisor) == q <==> q * divisor <= value < (q + 1) * divisor
  {
    var f := FloorDiv(value, divisor);
    if value < 0 {
      var n := -value;
      assert n == (n / divisor) * divisor + n % divisor;
      assert TruncRem(value, divisor) == -(n % divisor);
      assert f == if n % divisor == 0 then -(n / divisor) else -(n / divisor) - 1;
      if n % divisor != 0 {
        assert f * divisor == -((n / divisor) * divisor) - divisor;
      }
    } else {
      assert value == (value / divisor) * divisor + value % divisor;
      assert TruncRem(value, divisor) == value % divisor;
    }
    assert f * divisor <= value < (f + 1) * divisor;
    SpansAreDisjoint(value, divisor, f, q);
  }

  lemma SpansAreDisjoint(value: int, divisor: int, f: int, q: int)
    requires divisor > 0
    requires f * divisor <= value < (f + 1) * divisor
    ensures f == q <==> q * divisor <= value < (q + 1) * divisor
  {
    if q < f {
      assert (q + 1) * divisor <= f * divisor;
    } else if q > f {
      assert (f + 1) * divisor <= q * divisor;
    }
  }

  function Radius(kind: PoiType): int {
    match kind
    case Outpost => 8
    case Ruins => 7
    case LootShrine => 5
  }

  function SpawnProbability(density: PoiDensity): real {
    match density
    case Low => 0.18
    case Medium => 0.32
    case High => 0.52
  }

  function HashUnit(hash: nat): real { (hash % 0x1_0000_0000) as real / 4294967295.0 }

  function HashSignedRange(hash: nat, lo: int, hi: int): int {
    if lo >= hi then lo else lo + hash % (hi - lo + 1)
  }

  function EnabledTypes(t: PoiToggles): seq<PoiType> {
    (if t.outpost then [Outpost] else []) +
    (if t.ruins then [Ruins] else []) +
    (if t.lootShrine then [LootShrine] else [])
  }

  /** The point of interest of one cell, if that cell has one. */
  function BuildCandidate(cellX: int, cellZ: int, p: Profile, noise: Noise): Option<Poi> {
    var types := EnabledTypes(p.poiTypes);
    if !p.enabled || types == [] then None
    else if HashUnit(noise.hash(p.seed, cellX, cellZ, 0xA7F4C53D)) > SpawnProbability(p.density) then None
    else
      var size := CellSize(p);
      var jitter := Max(0, p.jitterUnits);
      var offsetX := HashSignedRange(noise.hash(p.seed, cellX, cellZ, 0x1B7A0D11), -jitter, jitter);
      var offsetZ := HashSignedRange(noise.hash(p.seed, cellX, cellZ, 0x52A8749B), -jitter, jitter);
      var kind := types[noise.hash(p.seed, cellX, cellZ, 0x7F4A7C15) % |types|];
      var centerX := cellX * size + size / 2 + offsetX;
      var centerZ := cellZ * size + size / 2 + offsetZ;
      if centerX < 0 || centerZ < 0 then None
      else Some(Poi(kind, centerX, centerZ, cellX, cellZ, Radius(kind),
                    noise.hash(p.seed, cellX, cellZ, 0x93D76517)))
  }

  function DensityRank(d: PoiDensity): nat {
    match d
    case Low => 0
    case Medium => 1
    case High => 2
  }

  /** A higher density keeps every candidate of a lower one, as it is. */
  lemma DenserKeepsCandidates(cellX: int, cellZ: int, p: Profile, noise: Noise, density: PoiDensity)
    requires DensityRank(p.density) <= DensityRank(density) && BuildCandidate(cellX, cellZ, p, noise).Some?
    ensures BuildCandidate(cellX, cellZ, p.(density := density), noise) == BuildCandidate(cellX, cellZ, p, noise)
  {
    hide HashUnit, HashSignedRange;
  }

  predicate RankLess(a: Poi, b: Poi) {
    if a.rank != b.rank then a.rank < b.rank
    else if a.cellX != b.cellX then a.cellX < b.cellX
    else a.cellZ < b.cellZ
  }

  predicate TooClose(a: Poi, b: Poi, spacing: int) {
    var dx, dz := b.centerX - a.centerX, b.centerZ - a.centerZ;
    dx * dx + dz * dz < spacing * spacing
  }

  /** The cell holds a point of interest that forces the candidate out. */
  predicate Evicts(cellX: int, cellZ: int, c: Poi, p: Profile, noise: Noise) {
    && (cellX != c.cellX || cellZ != c.cellZ)
    && var other := BuildCandidate(cellX, cellZ, p, noise);
       other.Some? && TooClose(c, other.value, p.minPoiSpacingUnits) && RankLess(other.value, c)
  }

  /** The reference: nobody on the whole infinite grid is both too close and better ranked. */
  ghost predicate Survives(c: Poi, p: Profile, noise: Noise) {
    forall cellX, cellZ :: !Evicts(cellX, cellZ, c, p, noise)
  }

  ghost predicate IsCandidate(c: Poi, p: Profile, noise: Noise) {
    BuildCandidate(c.cellX, c.cellZ, p, noise) == Some(c)
  }

  /** The points of interest the world really has. */
  ghost predicate OnGrid(c: Poi, p: Profile, noise: Noise) {
    IsCandidate(c, p, noise) && Survives(c, p, noise)
  }

  lemma CenterStaysInCell(c: Poi, p: Profile, noise: Noise)
    requires Sane(p) && IsCandidate(c, p, noise)
    ensures c.cellX * CellSize(p) < c.centerX < (c.cellX + 1) * CellSize(p)
    ensures c.cellZ * CellSize(p) < c.centerZ < (c.cellZ + 1) * CellSize(p)
    ensures c.centerX >= 0 && c.centerZ >= 0 && c.radius == Radius(c.kind)
  {
    JitteredCenter(c.cellX, CellSize(p), noise.hash(p.seed, c.cellX, c.cellZ, 0x1B7A0D11), p.jitterUnits);
    JitteredCenter(c.cellZ, CellSize(p), noise.hash(p.seed, c.cellX, c.cellZ, 0x52A8749B), p.jitterUnits);
  }

  lemma JitteredCenter(cell: int, size: int, hash: nat, jitter: int)
    requires 0 <= jitter <= size / 2 - 1
    ensures cell * size < cell * size + size / 2 + HashSignedRange(hash, -jitter, jitter) < (cell + 1) * size
  {
    assert -jitter <= HashSignedRange(hash, -jitter, jitter) <= jitter;
    assert (cell + 1) * size == cell * size + size;
  }

  /** Centers less than `spacing` apart lie at most this many cells apart. */
  lemma CellDistance(cellA: int, cellB: int, a: int, b: int, size: int, spacing: int)
    requires size > 0 && spacing > 0
    requires a < (cellA + 1) * size
    requires cellB * size < b
    requires b - a < spacing
    ensures cellB - cellA <= spacing / size + 2
  {
    var n := cellB - cellA - 1;
    assert n * size == cellB * size - (cellA + 1) * size;
    assert spacing == (spacing / size) * size + spacing % size;
    assert (spacing / size + 1) * size == (spacing / size) * size + size;
    MulCancels(n, spacing / size + 1, size);
  }

  lemma CloseOnEachAxis(dx: int, dz: int, spacing: int)
    requires spacing >= 0 && dx * dx + dz * dz < spacing * spacing
    ensures -spacing < dx < spacing && -spacing < dz < spacing
  {
    if !(-spacing < dx < spacing) { SquareAtLeast(dx, spacing); }
    if !(-spacing < dz < spacing) { SquareAtLeast(dz, spacing); }
  }

  lemma SquareAtLeast(d: int, s: int)
    requires s >= 0 && !(-s < d < s)
    ensures d * d >= s * s
  {
    var m := if d >= 0 then d else -d;
    MulMono(s, m, m);
    MulMono(s, m, s);
  }

  function SpacingWindow(p: Profile): int {
    Max(1, p.minPoiSpacingUnits / Max(1, CellSize(p)) + 2)
  }

  /** Whoever is too close sits in a cell the local search visits. */
  lemma TooCloseIsInWindow(c: Poi, d: Poi, p: Profile, noise: Noise)
    requires Sane(p) && IsCandidate(c, p, noise) && IsCandidate(d, p, noise)
    requires TooClose(c, d, p.minPoiSpacingUnits)
    ensures -SpacingWindow(p) <= d.cellX - c.cellX <= SpacingWindow(p)
    ensures -SpacingWindow(p) <= d.cellZ - c.cellZ <= SpacingWindow(p)
  {
    var spacing := p.minPoiSpacingUnits;
    CloseOnEachAxis(d.centerX - c.centerX, d.centerZ - c.centerZ, spacing);
    CenterStaysInCell(c, p, noise);
    CenterStaysInCell(d, p, noise);
    CellDistance(c.cellX, d.cellX, c.centerX, d.centerX, CellSize(p), spacing);
    CellDistance(d.cellX, c.cellX, d.centerX, c.centerX, CellSize(p), spacing);
    CellDistance(c.cellZ, d.cellZ, c.centerZ, d.centerZ, CellSize(p), spacing);
    CellDistance(d.cellZ, c.cellZ, d.centerZ, c.centerZ, CellSize(p), spacing);
  }

  lemma EvictionIsLocal(cellX: int, cellZ: int, c: Poi, p: Profile, noise: Noise)
    requires Sane(p) && IsCandidate(c, p, noise) && Evicts(cellX, cellZ, c, p, noise)
    ensures -SpacingWindow(p) <= cellX - c.cellX <= SpacingWindow(p)
    ensures -SpacingWindow(p) <= cellZ - c.cellZ <= SpacingWindow(p)
  {
    var d := BuildCandidate(cellX, cellZ, p, noise).value;
    TooCloseIsInWindow(c, d, p, noise);
  }

  lemma NoSpacingNoEviction(c: Poi, p: Profile, noise: Noise)
    requires p.minPoiSpacingUnits == 0
    ensures Survives(c, p, noise)
  {
    forall x, z ensures !Evicts(x, z, c, p, noise) {
      var other := BuildCandidate(x, z, p, noise);
      if other.Some? {
        SquareAtLeast(other.value.centerX - c.centerX, 0);
        SquareAtLeast(other.value.centerZ - c.centerZ, 0);
      }
    }
  }

  /** The windowed search decides survival on the infinite grid. */
  method SurvivesSpacing(candidate: Option<Poi>, p: Profile, noise: Noise) returns (ok: bool)
    requires Sane(p)
    requires candidate.Some? ==> IsCandidate(candidate.value, p, noise)
    ensures ok <==> candidate.Some? && Survives(candidate.value, p, noise)
  {
    if candidate.None? {
      return false;
    }
    var c := candidate.value;
    var spacing := p.minPoiSpacingUnits;
    if spacing <= 0 {
      NoSpacingNoEviction(c, p, noise);
      return true;
    }
    var w := SpacingWindow(p);
    for dz := -w to w + 1
      invariant Searched(c, p, noise, w, dz, -w)
    {
      for dx := -w to w + 1
        invariant Searched(c, p, noise, w, dz, dx)
      {
        ghost var evicts := Evicts(c.cellX + dx, c.cellZ + dz, c, p, noise);
        if dx != 0 || dz != 0 {
          var other := BuildCandidate(c.cellX + dx, c.cellZ + dz, p, noise);
          if other.Some? && TooClose(c, other.value, spacing) && RankLess(other.value, c) {
            return false;
          }
        }
        assert !evicts;
      }
    }
    SearchedSuffices(c, p, noise);
    return true;
  }

  /** The rows below dz, and row dz left of dx, hold nobody that evicts the candidate. */
  ghost predicate Searched(c: Poi, p: Profile, noise: Noise, w: int, dz: int, dx: int) {
    forall x, z :: -w <= x - c.cellX <= w && -w <= z - c.cellZ &&
                   (z - c.cellZ < dz || (z - c.cellZ == dz && x - c.cellX < dx))
      ==> !Evicts(x, z, c, p, noise)
  }

  lemma SearchedSuffices(c: Poi, p: Profile, noise: Noise)
    requires Sane(p) && IsCandidate(c, p, noise)
    requires Searched(c, p, noise, SpacingWindow(p), SpacingWindow(p) + 1, -SpacingWindow(p))
    ensures Survives(c, p, noise)
  {
    forall x, z ensures !Evicts(x, z, c, p, noise) {
      if Evicts(x, z, c, p, noise) { EvictionIsLocal(x, z, c, p, noise); }
    }
  }

  /** Any two distinct points of interest of the world keep their distance, anywhere on the plane. */
  lemma SpacingHolds(a: Poi, b: Poi, p: Profile, noise: Noise)
    requires Sane(p) && OnGrid(a, p, noise) && OnGrid(b, p, noise) && a != b
    ensures (b.centerX - a.centerX) * (b.centerX - a.centerX) + (b.centerZ - a.centerZ) * (b.centerZ - a.centerZ)
            >= p.minPoiSpacingUnits * p.minPoiSpacingUnits
  {
    hide BuildCandidate, SpawnProbability;
    assert a.cellX != b.cellX || a.cellZ != b.cellZ;
    var dx, dz := b.centerX - a.centerX, b.centerZ - a.centerZ;
    assert (-dx) * (-dx) == dx * dx && (-dz) * (-dz) == dz * dz;
    assert !Evicts(a.cellX, a.cellZ, b, p, noise);
    assert !Evicts(b.cellX, b.cellZ, a, p, noise);
  }

  // ---------------------------------------------------------------------------------------------
  // The list of one chunk
  // ---------------------------------------------------------------------------------------------

  predicate IntersectsChunk(c: Poi, chunkX: int, chunkZ: int) {
    var minX, minZ := chunkX * CHUNK_SIZE, chunkZ * CHUNK_SIZE;
    var dx := c.centerX - Clamp(c.centerX, minX, minX + (CHUNK_SIZE - 1));
    var dz := c.centerZ - Clamp(c.centerZ, minZ, minZ + (CHUNK_SIZE - 1));
    dx * dx + dz * dz <= c.radius * c.radius
  }

  function KindIndex(kind: PoiType): nat {
    match kind
    case Outpost => 0
    case Ruins => 1
    case LootShrine => 2
  }

  /** Painting order: later points of interest overwrite earlier ones. */
  predicate PaintsBefore(a: Poi, b: Poi) {
    if a.centerX != b.centerX then a.centerX < b.centerX
    else if a.centerZ != b.centerZ then a.centerZ < b.centerZ
    else KindIndex(a.kind) < KindIndex(b.kind)
  }

  /** The reference list: everything on the infinite grid whose disc meets the chunk, in painting order. */
  ghost predicate IsChunkList(list: seq<Poi>, chunkX: int, chunkZ: int, p: Profile, noise: Noise) {
    && (forall c :: c in list <==> OnGrid(c, p, noise) && IntersectsChunk(c, chunkX, chunkZ))
    && (forall i, j :: 0 <= i < j < |list| ==> PaintsBefore(list[i], list[j]))
  }

  /** Distinct cells give distinct centers, so painting order is total on the world's points of interest. */
  lemma PaintOrderIsTotal(a: Poi, b: Poi, p: Profile, noise: Noise)
    requires Sane(p) && IsCandidate(a, p, noise) && IsCandidate(b, p, noise) && a != b
    ensures PaintsBefore(a, b) || PaintsBefore(b, a)
    ensures !(PaintsBefore(a, b) && PaintsBefore(b, a))
  {
    CenterStaysInCell(a, p, noise);
    CenterStaysInCell(b, p, noise);
    if a.centerX == b.centerX && a.centerZ == b.centerZ {
      var size := CellSize(p);
      SpansAreDisjoint(a.centerX, size, a.cellX, b.cellX);
      SpansAreDisjoint(a.centerZ, size, a.cellZ, b.cellZ);
    }
  }

  function Margin(p: Profile): int { MAX_RADIUS + Max(0, p.jitterUnits) + CellSize(p) }

  lemma NearOneAxis(center: int, lo: int, hi: int, d: int, e: int)
    requires lo <= hi && d == center - Clamp(center, lo, hi) && d * d + e * e <= MAX_RADIUS * MAX_RADIUS
    ensures lo - MAX_RADIUS <= center <= hi + MAX_RADIUS
  {
    SquareAtLeast(e, 0);
    if !(-(MAX_RADIUS + 1) < d < MAX_RADIUS + 1) { SquareAtLeast(d, MAX_RADIUS + 1); }
  }

  lemma FloorIsMonotone(a: int, b: int, size: int)
    requires size > 0 && a <= b
    ensures FloorDiv(a, size) <= FloorDiv(b, size)
  {
    var x, y := FloorDiv(a, size), FloorDiv(b, size);
    FloorDivIsFloor(a, size, x);
    FloorDivIsFloor(b, size, y);
    MulCancels(x, y + 1, size);
  }

  /** The cell of anything whose disc meets the chunk lies in the window of cells that is searched. */
  lemma WindowMissesNothing(c: Poi, chunkX: int, chunkZ: int, p: Profile, noise: Noise)
    requires Sane(p) && IsCandidate(c, p, noise) && IntersectsChunk(c, chunkX, chunkZ)
    ensures var minX, minZ, m, size := chunkX * CHUNK_SIZE, chunkZ * CHUNK_SIZE, Margin(p), CellSize(p);
            && FloorDiv(minX - m, size) <= c.cellX <= FloorDiv(minX + (CHUNK_SIZE - 1) + m, size)
            && FloorDiv(minZ - m, size) <= c.cellZ <= FloorDiv(minZ + (CHUNK_SIZE - 1) + m, size)
  {
    var minX, minZ, m, size := chunkX * CHUNK_SIZE, chunkZ * CHUNK_SIZE, Margin(p), CellSize(p);
    CenterStaysInCell(c, p, noise);
    assert c.radius * c.radius <= MAX_RADIUS * MAX_RADIUS;
    var dx := c.centerX - Clamp(c.centerX, minX, minX + (CHUNK_SIZE - 1));
    var dz := c.centerZ - Clamp(c.centerZ, minZ, minZ + (CHUNK_SIZE - 1));
    NearOneAxis(c.centerX, minX, minX + (CHUNK_SIZE - 1), dx, dz);
    NearOneAxis(c.centerZ, minZ, minZ + (CHUNK_SIZE - 1), dz, dx);
    FloorDivIsFloor(c.centerX, size, c.cellX);
    FloorDivIsFloor(c.centerZ, size, c.cellZ);
    FloorIsMonotone(minX - m, c.centerX, size);
    FloorIsMonotone(c.centerX, minX + (CHUNK_SIZE - 1) + m, size);
    FloorIsMonotone(minZ - m, c.centerZ, size);
    FloorIsMonotone(c.centerZ, minZ + (CHUNK_SIZE - 1) + m, size);
  }

  ghost predicate Wanted(c: Poi, chunkX: int, chunkZ: int, p: Profile, noise: Noise) {
    OnGrid(c, p, noise) && IntersectsChunk(c, chunkX, chunkZ)
  }

  datatype Window = Window(loX: int, hiX: int, loZ: int, hiZ: int)

  function CellWindow(chunkX: int, chunkZ: int, p: Profile): Window {
    var size, margin := CellSize(p), Margin(p);
    var minX, minZ := chunkX * CHUNK_SIZE, chunkZ * CHUNK_SIZE;
    Window(FloorDiv(minX - margin, size), FloorDiv(minX + (CHUNK_SIZE - 1) + margin, size),
           FloorDiv(minZ - margin, size), FloorDiv(minZ + (CHUNK_SIZE - 1) + margin, size))
  }

  /** The window's rows below z, and row z left of x. */
  predicate Visited(c: Poi, w: Window, z: int, x: int) {
    w.loX <= c.cellX <= w.hiX && w.loZ <= c.cellZ && (c.cellZ < z || (c.cellZ == z && c.cellX < x))
  }

  ghost predicate Collected(out: seq<Poi>, chunkX: int, chunkZ: int, p: Profile, noise: Noise, z: int, x: int) {
    && (forall c :: c in out <==> Wanted(c, chunkX, chunkZ, p, noise) && Visited(c, CellWindow(chunkX, chunkZ, p), z, x))
    && (forall i, j :: 0 <= i < j < |out| ==> out[i] != out[j])
  }

  method CollectCell(chunkX: int, chunkZ: int, p: Profile, noise: Noise, cellZ: int, cellX: int, prefix: seq<Poi>)
    returns (out: seq<Poi>)
    requires Sane(p) && Collected(prefix, chunkX, chunkZ, p, noise, cellZ, cellX)
    requires CellWindow(chunkX, chunkZ, p).loZ <= cellZ
    requires CellWindow(chunkX, chunkZ, p).loX <= cellX <= CellWindow(chunkX, chunkZ, p).hiX
    ensures Collected(out, chunkX, chunkZ, p, noise, cellZ, cellX + 1)
  {
    var candidate := BuildCandidate(cellX, cellZ, p, noise);
    var survives := SurvivesSpacing(candidate, p, noise);
    out := prefix;
    if candidate.Some? && survives && IntersectsChunk(candidate.value, chunkX, chunkZ) {
      assert !Visited(candidate.value, CellWindow(chunkX, chunkZ, p), cellZ, cellX);
      out := out + [candidate.value];
    }
  }

  /** The windowed search finds exactly the reference list. */
  method GatherChunkCandidates(chunkX: int, chunkZ: int, p: Profile, noise: Noise) returns (out: seq<Poi>)
    requires Sane(p)
    ensures IsChunkList(out, chunkX, chunkZ, p, noise)
  {
    out := [];
    if !p.enabled {
      return;
    }
    var w := CellWindow(chunkX, chunkZ, p);
    WindowIsNotEmpty(chunkX, chunkZ, p);
    for cellZ := w.loZ to w.hiZ + 1
      invariant Collected(out, chunkX, chunkZ, p, noise, cellZ, w.loX)
    {
      for cellX := w.loX to w.hiX + 1
        invariant Collected(out, chunkX, chunkZ, p, noise, cellZ, cellX)
      {
        out := CollectCell(chunkX, chunkZ, p, noise, cellZ, cellX, out);
      }
    }
    ghost var found := out;
    out := StdSort(PaintsBefore, out);
    SortedCollectionIsTheList(found, out, chunkX, chunkZ, p, noise);
  }

  lemma WindowIsNotEmpty(chunkX: int, chunkZ: int, p: Profile)
    requires Sane(p)
    ensures var w := CellWindow(chunkX, chunkZ, p); w.loX <= w.hiX && w.loZ <= w.hiZ
  {
    var size, margin := CellSize(p), Margin(p);
    var minX, minZ := chunkX * CHUNK_SIZE, chunkZ * CHUNK_SIZE;
    FloorIsMonotone(minX - margin, minX + (CHUNK_SIZE - 1) + margin, size);
    FloorIsMonotone(minZ - margin, minZ + (CHUNK_SIZE - 1) + margin, size);
  }

  lemma SortedCollectionIsTheList(found: seq<Poi>, out: seq<Poi>, chunkX: int, chunkZ: int, p: Profile, noise: Noise)
    requires Sane(p)
    requires var w := CellWindow(chunkX, chunkZ, p);
             Collected(found, chunkX, chunkZ, p, noise, w.hiZ + 1, w.loX)
    requires multiset(out) == multiset(found) && SortedBy(PaintsBefore, out)
    ensures IsChunkList(out, chunkX, chunkZ, p, noise)
  {
    MultisetMembers(found, out);
    forall c ensures c in out <==> OnGrid(c, p, noise) && IntersectsChunk(c, chunkX, chunkZ) {
      assert c in out <==> c in found;
      if Wanted(c, chunkX, chunkZ, p, noise) { WindowMissesNothing(c, chunkX, chunkZ, p, noise); }
    }
    forall i, j | 0 <= i < j < |out| ensures PaintsBefore(out[i], out[j]) {
      SortKeepsDistinct(found, out, i, j);
      assert out[i] in found && out[j] in found;
      PaintOrderIsTotal(out[i], out[j], p, noise);
    }
  }

  /** The chunk's list is one particular list, whatever the search or the sort did. */
  lemma ChunkListUnique(a: seq<Poi>, b: seq<Poi>, chunkX: int, chunkZ: int, p: Profile, noise: Noise)
    requires Sane(p) && IsChunkList(a, chunkX, chunkZ, p, noise) && IsChunkList(b, chunkX, chunkZ, p, noise)
    ensures a == b
  {
    StrictlyOrderedUnique(a, b);
  }

  lemma {:induction false} StrictlyOrderedUnique(a: seq<Poi>, b: seq<Poi>)
    requires forall c :: c in a <==> c in b
    requires forall i, j :: 0 <= i < j < |a| ==> PaintsBefore(a[i], a[j])
    requires forall i, j :: 0 <= i < j < |b| ==> PaintsBefore(b[i], b[j])
    ensures a == b
  {
    assert a == [] <==> b == [] by {
      assert |a| > 0 ==> a[0] in b;
      assert |b| > 0 ==> b[0] in a;
    }
    if a != [] {
      assert a[0] in b && b[0] in a;
      var i :| 0 <= i < |b| && b[i] == a[0];
      var j :| 0 <= j < |a| && a[j] == b[0];
      assert a[0] == b[0];
      RestMembers(a);
      RestMembers(b);
      StrictlyOrderedUnique(a[1..], b[1..]);
    }
  }

  lemma RestMembers(s: seq<Poi>)
    requires s != []
    requires forall i, j :: 0 <= i < j < |s| ==> PaintsBefore(s[i], s[j])
    ensures forall c :: c in s[1..] <==> c in s && c != s[0]
  {
    forall c ensures c in s[1..] <==> c in s && c != s[0] {
      if c in s && c != s[0] {
        var i :| 0 <= i < |s| && s[i] == c;
        assert s[1..][i - 1] == c;
      }
      if c in s[1..] {
        var i :| 0 <= i < |s| - 1 && s[1..][i] == c;
        assert PaintsBefore(s[0], s[i + 1]);
      }
    }
  }
}
