/** shared/src/voxel/WorldGenerationProfile.cpp: a profile written to and read from an already parsed JSON value. */
module ProfileJson {
  import opened Prelude
  import opened WorldProfile

  datatype Json =
    | Null
    | Boolean(flag: bool)
    | Integer(whole: int)
    | Number(number: real)
    | Text(text: string)
    | List(elements: seq<Json>)
    | Object(fields: map<string, Json>)

  const INT_MAX := 0x7FFF_FFFF
  const UINT32_MAX := 0xFFFF_FFFF
  const FLOAT_MAX := 340282346638528859811704183484516925440.0

  /** What the source's field types can hold. */
  predicate Representable(p: Profile) {
    && p.seed <= UINT32_MAX
    && -INT_MAX - 1 <= p.cellSizeChunks <= INT_MAX
    && -INT_MAX - 1 <= p.jitterUnits <= INT_MAX
    && -INT_MAX - 1 <= p.minPoiSpacingUnits <= INT_MAX
    && -FLOAT_MAX <= p.lootBiasMultiplier <= FLOAT_MAX
  }

  function DensityName(d: PoiDensity): string {
    match d case Low => "low" case Medium => "medium" case High => "high"
  }

  function ParseDensity(s: string): Option<PoiDensity> {
    var lowered := Lowercase(s);
    if lowered == "low" then Some(Low) else if lowered == "medium" then Some(Medium) else if lowered == "high" then Some(High) else None
  }

  function ToggleFields(t: PoiToggles): map<string, Json> {
    map["outpost" := Boolean(t.outpost), "ruins" := Boolean(t.ruins), "loot_shrine" := Boolean(t.lootShrine)]
  }

  function Fields(p: Profile): map<string, Json> {
    map["seed" := Integer(p.seed),
        "expansion_enabled" := Boolean(p.enabled),
        "poi_density" := Text(DensityName(p.density)),
        "cell_size_chunks" := Integer(p.cellSizeChunks),
        "jitter_units" := Integer(p.jitterUnits),
        "min_poi_spacing_units" := Integer(p.minPoiSpacingUnits),
        "poi_types" := Object(ToggleFields(p.poiTypes)),
        "loot_bias_multiplier" := Number(p.lootBiasMultiplier)]
  }

  function ToJson(raw: Profile): Json { Object(Fields(Sanitize(raw))) }

  // A field that is absent keeps its default; one that is present must fit.

  function ReadInt(fields: map<string, Json>, name: string, lo: int, hi: int, default: int): Option<int> {
    if name !in fields then Some(default)
    else match fields[name]
      case Integer(n) => if lo <= n <= hi then Some(n) else None
      case _ => None
  }

  function ReadBool(fields: map<string, Json>, name: string, default: bool): Option<bool> {
    if name !in fields then Some(default)
    else match fields[name]
      case Boolean(b) => Some(b)
      case _ => None
  }

  function ReadDensity(fields: map<string, Json>, default: PoiDensity): Option<PoiDensity> {
    if "poi_density" !in fields then Some(default)
    else match fields["poi_density"]
      case Text(s) => ParseDensity(s)
      case _ => None
  }

  function ReadBias(fields: map<string, Json>, default: real): Option<real> {
    if "loot_bias_multiplier" !in fields then Some(default)
    else
      match fields["loot_bias_multiplier"]
      case Number(x) => if 0.0 < x <= FLOAT_MAX then Some(x) else None
      case Integer(n) => if 0.0 < n as real <= FLOAT_MAX then Some(n as real) else None
      case _ => None
  }

  function ReadToggles(fields: map<string, Json>, default: PoiToggles): Option<PoiToggles> {
    if "poi_types" !in fields then Some(default)
    else match fields["poi_types"]
      case Object(t) =>
        var outpost := ReadBool(t, "outpost", default.outpost);
        var ruins := ReadBool(t, "ruins", default.ruins);
        var shrine := ReadBool(t, "loot_shrine", default.lootShrine);
        if outpost.None? || ruins.None? || shrine.None? then None
        else Some(PoiToggles(outpost.value, ruins.value, shrine.value))
      case _ => None
  }

  function FromJson(v: Json): Option<Profile> {
    if !v.Object? then None
    else
      var d := DEFAULT_PROFILE;
      var seed := ReadInt(v.fields, "seed", 0, UINT32_MAX, d.seed);
      var enabled := ReadBool(v.fields, "expansion_enabled", d.enabled);
      var density := ReadDensity(v.fields, d.density);
      var cell := ReadInt(v.fields, "cell_size_chunks", 1, INT_MAX, d.cellSizeChunks);
      var jitter := ReadInt(v.fields, "jitter_units", 0, INT_MAX, d.jitterUnits);
      var spacing := ReadInt(v.fields, "min_poi_spacing_units", 0, INT_MAX, d.minPoiSpacingUnits);
      var toggles := ReadToggles(v.fields, d.poiTypes);
      var bias := ReadBias(v.fields, d.lootBiasMultiplier);
      if seed.None? || enabled.None? || density.None? || cell.None? || jitter.None? || spacing.None? || toggles.None? || bias.None? then None
      else Some(Sanitize(Profile(seed.value, enabled.value, density.value, cell.value, jitter.value, spacing.value, toggles.value, bias.value)))
  }

  lemma DensityRoundTrip(d: PoiDensity)
    ensures ParseDensity(DensityName(d)) == Some(d)
  {
    var s := DensityName(d);
    assert Lowercase(s) == s;
  }

  lemma TogglesReadBack(f: map<string, Json>, t: PoiToggles, default: PoiToggles)
    requires "poi_types" in f && f["poi_types"] == Object(ToggleFields(t))
    ensures ReadToggles(f, default) == Some(t)
  {
    var g := ToggleFields(t);
    assert ReadBool(g, "outpost", default.outpost) == Some(t.outpost);
    assert ReadBool(g, "ruins", default.ruins) == Some(t.ruins);
    assert ReadBool(g, "loot_shrine", default.lootShrine) == Some(t.lootShrine);
  }

  /** What stands under each name. */
  lemma SwitchesAreWritten(p: Profile)
    ensures "expansion_enabled" in Fields(p) && Fields(p)["expansion_enabled"] == Boolean(p.enabled)
    ensures "poi_density" in Fields(p) && Fields(p)["poi_density"] == Text(DensityName(p.density))
    ensures "poi_types" in Fields(p) && Fields(p)["poi_types"] == Object(ToggleFields(p.poiTypes))
  {
  }

  lemma NumbersAreWritten(p: Profile)
    ensures "seed" in Fields(p) && Fields(p)["seed"] == Integer(p.seed)
    ensures "cell_size_chunks" in Fields(p) && Fields(p)["cell_size_chunks"] == Integer(p.cellSizeChunks)
    ensures "jitter_units" in Fields(p) && Fields(p)["jitter_units"] == Integer(p.jitterUnits)
  {
  }

  lemma MoreNumbersAreWritten(p: Profile)
    ensures "min_poi_spacing_units" in Fields(p) && Fields(p)["min_poi_spacing_units"] == Integer(p.minPoiSpacingUnits)
    ensures "loot_bias_multiplier" in Fields(p) && Fields(p)["loot_bias_multiplier"] == Number(p.lootBiasMultiplier)
  {
  }

  lemma SaneIsReadBack(q: Profile)
    requires Representable(q) && Sane(q)
    ensures FromJson(Object(Fields(q))) == Some(Sanitize(q))
  {
    hide Fields, ToggleFields, ReadToggles, ParseDensity, DensityName, Sanitize;
    SwitchesAreWritten(q);
    NumbersAreWritten(q);
    MoreNumbersAreWritten(q);
    DensityRoundTrip(q.density);
    TogglesReadBack(Fields(q), q.poiTypes, DEFAULT_PROFILE.poiTypes);
  }

  /** Writing repairs, and reading gives back exactly the repaired profile. */
  lemma WrittenIsReadRepaired(p: Profile)
    requires Representable(p)
    ensures FromJson(ToJson(p)) == Some(Sanitize(p))
  {
    hide FromJson, Fields;
    SanitizeRepairsExactlyTheUnsound(p);
    SaneIsReadBack(Sanitize(p));
  }

  lemma ReadFits(v: Json)
    requires FromJson(v).Some?
    ensures Sane(FromJson(v).value) && Representable(FromJson(v).value)
  {
    hide ReadBool, ReadToggles, ReadDensity;
  }

  /** Whatever is read is usable as it is, and survives being written and read again. */
  lemma ReadIsSaneAndStable(v: Json)
    requires FromJson(v).Some?
    ensures Sane(FromJson(v).value) && Representable(FromJson(v).value)
    ensures FromJson(ToJson(FromJson(v).value)) == FromJson(v)
  {
    ReadFits(v);
    hide FromJson, ToJson;
    var p := FromJson(v).value;
    SanitizeRepairsExactlyTheUnsound(p);
    WrittenIsReadRepaired(p);
  }
}
