/** server/src/CombatSimulation.cpp: weapons, queued shots, delayed projectiles, health and death. */
module Combat {
  import opened Prelude
  import opened Sorting
  import opened Ids
  import opened Queues
  import opened Movement
  import opened Raycast

  datatype WeaponClass = Hitscan | Projectile

  /** A weapon as the server runs it. */
  datatype Weapon = Weapon(id: string, kind: WeaponClass, damage: int, rateOfFire: real, range: real, speed: real)

  /** A weapon as configured, with its damage per shot already rounded. */
  datatype WeaponDefinition = WeaponDefinition(id: string, kind: string, damagePerShot: int, rateOfFire: real, range: real, projectileSpeed: real)

  datatype Config = Config(startingHealth: int, hitscanRange: real, projectileRange: real, projectileSpeed: real, hitRadius: real)

  datatype Hit = Hit(resolveTick: nat, attacker: nat, victim: nat, shotSeq: nat, weaponId: string, damage: int)

  datatype Damage = Damage(tick: nat, attacker: nat, victim: nat, shotSeq: nat, weaponId: string, damage: int, victimHealth: int, lethal: bool)

  datatype Death = Death(tick: nat, victim: nat, killer: nat, shotSeq: nat, weaponId: string)

  function Victims(deaths: seq<Death>): set<nat> { set d | d in deaths :: d.victim }

  /** The order in which the match and the loot code take a tick's deaths. */
  predicate DeathLess(a: Death, b: Death) {
    if a.victim != b.victim then a.victim < b.victim
    else if a.killer != b.killer then a.killer < b.killer
    else a.shotSeq < b.shotSeq
  }

  datatype Outcome = Outcome(damages: seq<Damage>, deaths: seq<Death>)

  datatype EnqueueStatus = Accepted | UnknownWeapon | OutOfOrder

  type Fighters = map<nat, Fighter>

  type Arsenal = map<string, Weapon>

  const NOTHING := Outcome([], [])

  // ---------------------------------------------------------------------------------------------
  // Weapons and their timing
  // ---------------------------------------------------------------------------------------------

  predicate Sensible(c: Config) {
    c.startingHealth > 0 && c.hitscanRange > 0.0 && c.projectileRange > 0.0 && c.projectileSpeed > 0.0 && c.hitRadius > 0.0
  }

  function SanitizeConfig(c: Config): (r: Config)
    ensures Sensible(r) && (Sensible(c) ==> r == c)
    ensures r.startingHealth == c.startingHealth || (c.startingHealth <= 0 && r.startingHealth == 100)
    ensures r.hitscanRange == c.hitscanRange || (c.hitscanRange <= 0.0 && r.hitscanRange == 128.0)
    ensures r.projectileRange == c.projectileRange || (c.projectileRange <= 0.0 && r.projectileRange == 96.0)
    ensures r.projectileSpeed == c.projectileSpeed || (c.projectileSpeed <= 0.0 && r.projectileSpeed == 40.0)
    ensures r.hitRadius == c.hitRadius || (c.hitRadius <= 0.0 && r.hitRadius == 0.75)
  {
    Config(if c.startingHealth <= 0 then 100 else c.startingHealth, Positive(c.hitscanRange, 128.0),
           Positive(c.projectileRange, 96.0), Positive(c.projectileSpeed, 40.0), Positive(c.hitRadius, 0.75))
  }

  function ToWeapon(d: WeaponDefinition, c: Config): Weapon {
    var kind := if Lowercase(d.kind) == "projectile" then Projectile else Hitscan;
    Weapon(Lowercase(d.id), kind, Max(0, d.damagePerShot), Positive(d.rateOfFire, 1.0),
           Positive(d.range, if kind == Hitscan then c.hitscanRange else c.projectileRange),
           if kind == Hitscan then 0.0 else Positive(d.projectileSpeed, c.projectileSpeed))
  }

  predicate Usable(d: WeaponDefinition) { d.id != "" && d.damagePerShot > 0 }

  /** The weapons of a list of definitions; a later definition of the same id replaces an earlier one. */
  function ArsenalOf(definitions: seq<WeaponDefinition>, c: Config): Arsenal {
    if definitions == [] then map[]
    else
      var d := definitions[|definitions| - 1];
      var before := ArsenalOf(definitions[..|definitions| - 1], c);
      if Usable(d) then before[Lowercase(d.id) := ToWeapon(d, c)] else before
  }

  /** Under each id stands the last usable definition of it, and nothing where there is none. */
  lemma {:induction false} LastDefinitionCounts(definitions: seq<WeaponDefinition>, c: Config, id: string)
    ensures id in ArsenalOf(definitions, c) <==> exists d :: d in definitions && Usable(d) && Lowercase(d.id) == id
    ensures forall i :: 0 <= i < |definitions| && Usable(definitions[i]) && Lowercase(definitions[i].id) == id
                        && (forall j :: i < j < |definitions| && Usable(definitions[j]) ==> Lowercase(definitions[j].id) != id)
                        ==> id in ArsenalOf(definitions, c) && ArsenalOf(definitions, c)[id] == ToWeapon(definitions[i], c)
  {
    if definitions != [] {
      var n := |definitions| - 1;
      assert definitions == definitions[..n] + [definitions[n]];
      LastDefinitionCounts(definitions[..n], c, id);
    }
  }

  /** Every weapon in the arsenal does damage, has a rate of fire and, if a projectile, a speed. */
  ghost predicate Armed(a: Arsenal) {
    forall id :: id in a ==> a[id].id == id && a[id].damage > 0 && a[id].rateOfFire > 0.0 && (a[id].kind == Projectile ==> a[id].speed > 0.0)
  }

  function Ceil(x: real): (n: int)
    ensures n as real - 1.0 < x <= n as real
  {
    -((-x).Floor)
  }

  function CooldownTicks(rate: real, interval: int): (n: nat)
    ensures n >= 1
  {
    if rate <= 0.0 || interval <= 0 then 1 else Max(1, Ceil(1.0 / rate / Seconds(interval)))
  }

  function TravelDelayTicks(distance: real, speed: real, interval: int): (n: nat)
    ensures n >= 1
  {
    if distance < 0.0 || speed <= 0.0 || interval <= 0 then 1 else Max(1, Ceil(distance / speed / Seconds(interval)))
  }

  // ---------------------------------------------------------------------------------------------
  // The simulation as a value
  // ---------------------------------------------------------------------------------------------

  datatype State = State(fighters: Fighters, positions: Positions, queues: Queues<Fire>, lastShotSeq: map<nat, nat>,
                         nextFire: map<nat, nat>, pending: seq<Hit>)

  const EMPTY := State(map[], map[], map[], map[], map[], [])

  function EnsureFighter(f: Fighters, health: int, id: nat): Fighters {
    if id in f then f else f[id := Fighter(health, true, 0)]
  }

  function Without(pending: seq<Hit>, attacker: Option<nat>, victim: nat): seq<Hit> {
    if pending == [] then []
    else
      var h := pending[|pending| - 1];
      Without(pending[..|pending| - 1], attacker, victim) + if h.victim == victim || Some(h.attacker) == attacker then [] else [h]
  }

  function Remove(s: State, id: nat): State {
    State(s.fighters - {id}, s.positions - {id}, s.queues - {id}, s.lastShotSeq - {id}, s.nextFire - {id},
          Without(s.pending, Some(id), id))
  }

  function Respawn(s: State, health: int, id: nat): State {
    var f := EnsureFighter(s.fighters, health, id);
    s.(fighters := f[id := f[id].(health := health, alive := true)], pending := Without(s.pending, None, id))
  }

  function Place(s: State, health: int, id: nat, pos: (real, real)): State {
    s.(fighters := EnsureFighter(s.fighters, health, id), positions := s.positions[id := pos])
  }

  function Verdict(a: Arsenal, s: State, f: Fire): EnqueueStatus {
    var queue := QueueOf(s.queues, f.attacker);
    if Lowercase(f.weaponId) !in a then UnknownWeapon
    else if f.attacker in s.lastShotSeq && f.shotSeq <= s.lastShotSeq[f.attacker] then OutOfOrder
    else if queue != [] && f.shotSeq <= queue[|queue| - 1].shotSeq then OutOfOrder
    else Accepted
  }

  function Enqueue(a: Arsenal, health: int, s: State, f: Fire): State {
    if Verdict(a, s, f) != Accepted then s
    else
      var g := f.(weaponId := Lowercase(f.weaponId));
      s.(queues := s.queues[f.attacker := QueueOf(s.queues, f.attacker) + [g]],
         lastShotSeq := s.lastShotSeq[f.attacker := f.shotSeq],
         fighters := EnsureFighter(s.fighters, health, f.attacker))
  }

  predicate Alive(f: Fighters, id: nat) { id in f && f[id].alive }

  function Wound(f: Fighters, h: Hit): Fighters
    requires h.victim in f
  {
    var health := Max(0, f[h.victim].health - Max(0, h.damage));
    f[h.victim := f[h.victim].(health := health, alive := health != 0 && f[h.victim].alive)]
  }

  function ApplyDamage(f: Fighters, out: Outcome, tick: nat, h: Hit): (Fighters, Outcome) {
    if !Alive(f, h.victim) || h.damage <= 0 then (f, out)
    else
      var g := Wound(f, h);
      var lethal := g[h.victim].health == 0;
      (g, Outcome(out.damages + [Damage(tick, h.attacker, h.victim, h.shotSeq, h.weaponId, h.damage, g[h.victim].health, lethal)],
                  out.deaths + if lethal then [Death(tick, h.victim, h.attacker, h.shotSeq, h.weaponId)] else []))
  }

  function ApplyHits(f: Fighters, out: Outcome, tick: nat, hits: seq<Hit>): (Fighters, Outcome) {
    if hits == [] then (f, out)
    else
      var (g, o) := ApplyHits(f, out, tick, hits[..|hits| - 1]);
      ApplyDamage(g, o, tick, hits[|hits| - 1])
  }

  /** The pending hits that are due, or those that are not, in their order. */
  function Select(pending: seq<Hit>, tick: nat, due: bool): seq<Hit> {
    if pending == [] then []
    else
      var h := pending[|pending| - 1];
      Select(pending[..|pending| - 1], tick, due) + if (h.resolveTick <= tick) == due then [h] else []
  }

  predicate HitLess(a: Hit, b: Hit) {
    if a.resolveTick != b.resolveTick then a.resolveTick < b.resolveTick
    else if a.attacker != b.attacker then a.attacker < b.attacker
    else if a.shotSeq != b.shotSeq then a.shotSeq < b.shotSeq
    else a.victim < b.victim
  }

  function DueHits(s: State, tick: nat): seq<Hit> { Arranged(HitLess, Select(s.pending, tick, true)) }

  function ResolveProjectiles(s: State, tick: nat): (State, Outcome) {
    var (f, out) := ApplyHits(s.fighters, NOTHING, tick, DueHits(s, tick));
    (s.(fighters := f, pending := Select(s.pending, tick, false)), out)
  }

  /** A queued shot that takes effect: its shooter stands and has cooled down. */
  predicate Effective(a: Arsenal, s: State, tick: nat, f: Fire) {
    Alive(s.fighters, f.attacker) && f.weaponId in a && tick >= Get(s.nextFire, f.attacker, 0)
  }

  /** The shot is noted on its shooter, who starts to cool down. */
  function Marked(s: State, tick: nat, interval: int, f: Fire, w: Weapon): State
    requires f.attacker in s.fighters
  {
    var shooter := s.fighters[f.attacker];
    s.(nextFire := s.nextFire[f.attacker := tick + CooldownTicks(w.rateOfFire, interval)],
       fighters := s.fighters[f.attacker := shooter.(lastShotSeq := Max(shooter.lastShotSeq, f.shotSeq))])
  }

  /** A hitscan hit is dealt at once; a projectile takes off toward its victim. */
  function Strike(s: State, out: Outcome, tick: nat, interval: int, f: Fire, w: Weapon, ray: RayHit): (State, Outcome) {
    if w.kind == Hitscan then
      var (g, o) := ApplyDamage(s.fighters, out, tick, Hit(tick, f.attacker, ray.victim, f.shotSeq, w.id, w.damage));
      (s.(fighters := g), o)
    else
      var delay := TravelDelayTicks(ray.distance, w.speed, interval);
      (s.(pending := s.pending + [Hit(tick + delay, f.attacker, ray.victim, f.shotSeq, w.id, w.damage)]), out)
  }

  function FireOne(a: Arsenal, s: State, out: Outcome, tick: nat, interval: int, f: Fire, hit: Option<RayHit>): (State, Outcome) {
    if !Effective(a, s, tick, f) then (s, out)
    else
      var t := Marked(s, tick, interval, f, a[f.weaponId]);
      match hit
      case None => (t, out)
      case Some(ray) => Strike(t, out, tick, interval, f, a[f.weaponId], ray)
  }

  function Pick(hits: seq<Option<RayHit>>, i: nat): Option<RayHit> { if i < |hits| then hits[i] else None }

  function FireAll(a: Arsenal, s: State, out: Outcome, tick: nat, interval: int, fires: seq<Fire>, hits: seq<Option<RayHit>>): (State, Outcome) {
    if fires == [] then (s, out)
    else
      var n := |fires| - 1;
      var (t, o) := FireAll(a, s, out, tick, interval, fires[..n], hits);
      FireOne(a, t, o, tick, interval, fires[n], Pick(hits, n))
  }

  /** One tick: projectiles that are due, then the drained shots, each hitting what `hits` says. */
  ghost function CombatTick(a: Arsenal, s: State, tick: nat, interval: int, hits: seq<Option<RayHit>>): (State, Outcome) {
    var (t, out) := ResolveProjectiles(s, tick);
    FireAll(a, t.(queues := map[]), out, tick, interval, Drained(s.queues), hits)
  }

  /** The hits a tick may pick: for every effective shot, a choice among its targets at that moment. */
  ghost predicate Admissible(g: Geometry, a: Arsenal, s: State, out: Outcome, tick: nat, interval: int,
                             fires: seq<Fire>, hits: seq<Option<RayHit>>)
  {
    |hits| == |fires| &&
    (fires == [] ||
     var n := |fires| - 1;
     var t := FireAll(a, s, out, tick, interval, fires[..n], hits[..n]).0;
     && Admissible(g, a, s, out, tick, interval, fires[..n], hits[..n])
     && (Effective(a, t, tick, fires[n]) ==>
           CanBeHit(Targets(g, fires[n], a[fires[n].weaponId].range, t.fighters, t.positions), hits[n])))
  }
}
