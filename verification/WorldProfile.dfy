/** shared/src/voxel/WorldGenerationProfile.cpp: the knobs of world generation and their repair. */
module WorldProfile {
  import opened Prelude

  const CHUNK_SIZE := 32

  datatype PoiDensity = Low | Medium | High

  datatype PoiToggles = PoiToggles(outpost: bool, ruins: bool, lootShrine: bool)

  datatype Profile = Profile(
    seed: nat,
    enabled: bool,
    density: PoiDensity,
    cellSizeChunks: int,
    jitterUnits: int,
    minPoiSpacingUnits: int,
    poiTypes: PoiToggles,
    lootBiasMultiplier: real)

  const DEFAULT_PROFILE := Profile(1337, true, Medium, 4, 24, 96, PoiToggles(true, true, true), 1.25)

  /** One field after another, as the source repairs its copy. */
  function Sanitize(profile: Profile): (r: Profile)
    ensures Sane(r)
  {
    var p := if profile.cellSizeChunks <= 0 then profile.(cellSizeChunks := 4) else profile;
    var p := if p.jitterUnits < 0 then p.(jitterUnits := 24) else p;
    var maxJitter := Max(0, p.cellSizeChunks * 32 / 2 - 1);
    var p := p.(jitterUnits := Clamp(p.jitterUnits, 0, maxJitter));
    var p := if p.minPoiSpacingUnits < 0 then p.(minPoiSpacingUnits := 96) else p;
    var p := if p.lootBiasMultiplier <= 0.0 then p.(lootBiasMultiplier := 1.25) else p;
    if !p.poiTypes.outpost && !p.poiTypes.ruins && !p.poiTypes.lootShrine
    then p.(poiTypes := p.poiTypes.(outpost := true))
    else p
  }

  /** Edge of one square cell of the point-of-interest grid, in blocks. */
  function CellSize(p: Profile): (s: int)
    ensures s >= CHUNK_SIZE
  {
    Max(1, p.cellSizeChunks) * CHUNK_SIZE
  }

  /** A profile world generation can work with: the jitter cannot push a center out of its cell. */
  predicate Sane(p: Profile) {
    && p.cellSizeChunks > 0
    && 0 <= p.jitterUnits <= CellSize(p) / 2 - 1
    && p.minPoiSpacingUnits >= 0
    && p.lootBiasMultiplier > 0.0
    && (p.poiTypes.outpost || p.poiTypes.ruins || p.poiTypes.lootShrine)
  }

  /** Repair touches exactly the unsound profiles, so repairing twice is repairing once. */
  lemma SanitizeRepairsExactlyTheUnsound(p: Profile)
    ensures Sanitize(p) == p <==> Sane(p)
    ensures Sanitize(Sanitize(p)) == Sanitize(p)
    ensures Sanitize(p).seed == p.seed && Sanitize(p).enabled == p.enabled && Sanitize(p).density == p.density
  {
  }
}
