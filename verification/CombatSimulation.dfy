/** The combat simulation as an object: its tables, queues and projectiles, updated in place. */
module CombatSim {
  import opened Prelude
  import opened Sorting
  import opened Queues
  import Movement
  import opened Raycast
  import opened Combat
  import opened CombatInvariants
  import opened CombatRuns

  class CombatSimulation {
    const geometry: Geometry
    const config: Config
    const weapons: Arsenal
    var fighters: Fighters
    var positions: Positions
    var fireQueues: Queues<Fire>
    var lastShotSeq: map<nat, nat>
    var nextFireTick: map<nat, nat>
    var pending: seq<Hit>

    ghost function Holding(): State
      reads this
    {
      State(fighters, positions, fireQueues, lastShotSeq, nextFireTick, pending)
    }

    ghost function TheRules(): Rules { Rules(weapons, config.startingHealth) }

    constructor (norm: Movement.Norm, definitions: seq<WeaponDefinition>, config: Config)
      ensures Armed(weapons) && this.config.startingHealth > 0 && Holding() == EMPTY
      ensures this.config == SanitizeConfig(config) && geometry == RayGeometry(norm, this.config.hitRadius)
      ensures weapons == ArsenalOf(definitions, this.config)
    {
      var sane := SanitizeConfig(config);
      geometry := RayGeometry(norm, sane.hitRadius);
      var arsenal: Arsenal := map[];
      for i := 0 to |definitions|
        invariant Armed(arsenal)
        invariant arsenal == ArsenalOf(definitions[..i], sane)
      {
        var d := definitions[i];
        assert definitions[..i + 1][..i] == definitions[..i];
        if d.id != "" && d.damagePerShot > 0 {
          arsenal := arsenal[Lowercase(d.id) := ToWeapon(d, sane)];
        }
      }
      assert definitions[..|definitions|] == definitions;
      this.config := sane;
      weapons := arsenal;
      fighters, positions, fireQueues, lastShotSeq, nextFireTick, pending := map[], map[], map[], map[], map[], [];
    }

    method Reset()
      modifies this
      ensures Holding() == EMPTY
    {
      fighters, positions, fireQueues, lastShotSeq, nextFireTick, pending := map[], map[], map[], map[], map[], [];
    }

    method EnsurePlayer(id: nat)
      modifies this
      ensures Holding() == Step(TheRules(), old(Holding()), Join(id)).0
    {
      if id !in fighters {
        fighters := fighters[id := Fighter(config.startingHealth, true, 0)];
      }
    }

    method DropPending(attacker: Option<nat>, victim: nat)
      modifies this`pending
      ensures pending == Without(old(pending), attacker, victim)
    {
      var kept: seq<Hit> := [];
      for i := 0 to |pending|
        invariant kept == Without(pending[..i], attacker, victim)
      {
        assert pending[..i + 1][..i] == pending[..i];
        if !(pending[i].victim == victim || Some(pending[i].attacker) == attacker) {
          kept := kept + [pending[i]];
        }
      }
      assert pending[..|pending|] == pending;
      pending := kept;
    }

    method RemovePlayer(id: nat)
      modifies this
      ensures Holding() == Step(TheRules(), old(Holding()), Leave(id)).0
    {
      fighters := fighters - {id};
      positions := positions - {id};
      fireQueues := fireQueues - {id};
      lastShotSeq := lastShotSeq - {id};
      nextFireTick := nextFireTick - {id};
      DropPending(Some(id), id);
    }

    method RespawnPlayer(id: nat)
      modifies this
      ensures Holding() == Step(TheRules(), old(Holding()), Revive(id)).0
    {
      if id !in fighters {
        fighters := fighters[id := Fighter(config.startingHealth, true, 0)];
      }
      fighters := fighters[id := fighters[id].(health := config.startingHealth, alive := true)];
      DropPending(None, id);
    }

    method SetPlayerPosition(id: nat, x: real, y: real)
      modifies this
      ensures Holding() == Step(TheRules(), old(Holding()), Move(id, (x, y))).0
    {
      if id !in fighters {
        fighters := fighters[id := Fighter(config.startingHealth, true, 0)];
      }
      positions := positions[id := (x, y)];
    }

    method EnqueueFire(fire: Fire) returns (status: EnqueueStatus)
      modifies this
      ensures status == Verdict(weapons, old(Holding()), fire)
      ensures Holding() == Step(TheRules(), old(Holding()), Shoot(fire)).0
    {
      var weaponId := Lowercase(fire.weaponId);
      if weaponId !in weapons {
        return UnknownWeapon;
      }
      if fire.attacker in lastShotSeq && fire.shotSeq <= lastShotSeq[fire.attacker] {
        return OutOfOrder;
      }
      var queue := QueueOf(fireQueues, fire.attacker);
      if queue != [] && fire.shotSeq <= queue[|queue| - 1].shotSeq {
        return OutOfOrder;
      }
      fireQueues := fireQueues[fire.attacker := queue + [fire.(weaponId := weaponId)]];
      lastShotSeq := lastShotSeq[fire.attacker := fire.shotSeq];
      if fire.attacker !in fighters {
        fighters := fighters[fire.attacker := Fighter(config.startingHealth, true, 0)];
      }
      return EnqueueStatus.Accepted;
    }

    method ApplyOneDamage(tick: nat, h: Hit, out: Outcome) returns (next: Outcome)
      modifies this`fighters
      ensures var (f, o) := ApplyDamage(old(fighters), out, tick, h); fighters == f && next == o
    {
      next := out;
      if h.victim !in fighters || !fighters[h.victim].alive {
        return;
      }
      var damage := Max(0, h.damage);
      if damage <= 0 {
        return;
      }
      var victim := fighters[h.victim];
      victim := victim.(health := Max(0, victim.health - damage));
      var lethal := victim.health == 0;
      if lethal {
        victim := victim.(alive := false);
      }
      fighters := fighters[h.victim := victim];
      next := Outcome(next.damages + [Damage(tick, h.attacker, h.victim, h.shotSeq, h.weaponId, damage, victim.health, lethal)], next.deaths);
      if lethal {
        next := next.(deaths := next.deaths + [Death(tick, h.victim, h.attacker, h.shotSeq, h.weaponId)]);
      } else {
        assert next.deaths + [] == next.deaths;
      }
    }

    /** Splits the projectiles into due and remaining. */
    method TakeDue(tick: nat) returns (due: seq<Hit>)
      modifies this`pending
      ensures due == Select(old(pending), tick, true) && pending == Select(old(pending), tick, false)
    {
      var remaining: seq<Hit> := [];
      due := [];
      for i := 0 to |pending|
        invariant due == Select(pending[..i], tick, true) && remaining == Select(pending[..i], tick, false)
      {
        assert pending[..i + 1][..i] == pending[..i];
        if pending[i].resolveTick <= tick {
          due := due + [pending[i]];
        } else {
          remaining := remaining + [pending[i]];
        }
      }
      assert pending[..|pending|] == pending;
      pending := remaining;
    }

    method ApplyAll(tick: nat, due: seq<Hit>) returns (out: Outcome)
      modifies this`fighters
      ensures var (f, o) := ApplyHits(old(fighters), NOTHING, tick, due); fighters == f && out == o
    {
      out := NOTHING;
      for i := 0 to |due|
        invariant var (f, o) := ApplyHits(old(fighters), NOTHING, tick, due[..i]); fighters == f && out == o
      {
        assert due[..i + 1][..i] == due[..i];
        out := ApplyOneDamage(tick, due[i], out);
      }
      assert due[..|due|] == due;
    }

    method ResolveDue(tick: nat) returns (out: Outcome)
      requires DistinctHits(pending)
      modifies this`pending, this`fighters
      ensures var (s, o) := ResolveProjectiles(old(Holding()), tick); Holding() == s && out == o
    {
      SelectMembers(pending, tick, true);
      var due := TakeDue(tick);
      ghost var unsorted := due;
      due := StdSort(HitLess, due);
      DueOrderIsUnique(unsorted, due);
      out := ApplyAll(tick, due);
    }

    method StrikeNow(tick: nat, interval: int, f: Fire, weapon: Weapon, ray: RayHit, out: Outcome) returns (next: Outcome)
      modifies this`fighters, this`pending
      ensures var (s, o) := Strike(old(Holding()), out, tick, interval, f, weapon, ray); Holding() == s && next == o
    {
      next := out;
      if weapon.kind == Hitscan {
        next := ApplyOneDamage(tick, Hit(tick, f.attacker, ray.victim, f.shotSeq, weapon.id, weapon.damage), out);
        return;
      }
      var delay := TravelDelayTicks(ray.distance, weapon.speed, interval);
      pending := pending + [Hit(tick + delay, f.attacker, ray.victim, f.shotSeq, weapon.id, weapon.damage)];
    }

    method Mark(tick: nat, interval: int, f: Fire, weapon: Weapon)
      requires f.attacker in fighters
      modifies this`fighters, this`nextFireTick
      ensures Holding() == Marked(old(Holding()), tick, interval, f, weapon)
    {
      nextFireTick := nextFireTick[f.attacker := tick + CooldownTicks(weapon.rateOfFire, interval)];
      var shooter := fighters[f.attacker];
      fighters := fighters[f.attacker := shooter.(lastShotSeq := Max(shooter.lastShotSeq, f.shotSeq))];
    }

    /** Casts the ray of a shot that has just been marked. */
    method Aim(f: Fire, weapon: Weapon, ghost before: Fighters) returns (ray: Option<RayHit>)
      requires f.attacker in before && before.Keys == fighters.Keys
      requires fighters == before[f.attacker := before[f.attacker].(lastShotSeq := Max(before[f.attacker].lastShotSeq, f.shotSeq))]
      ensures CanBeHit(Targets(geometry, f, weapon.range, before, positions), ray)
    {
      SameTargets(geometry, f, weapon.range, before, positions);
      ray := RaycastVictim(geometry, f, weapon.range, fighters, positions);
    }

    method FireShot(tick: nat, interval: int, f: Fire, out: Outcome) returns (next: Outcome, ghost hit: Option<RayHit>)
      modifies this`fighters, this`nextFireTick, this`pending
      ensures var (s, o) := FireOne(weapons, old(Holding()), out, tick, interval, f, hit); Holding() == s && next == o
      ensures Effective(weapons, old(Holding()), tick, f) ==>
                CanBeHit(Targets(geometry, f, weapons[f.weaponId].range, old(fighters), positions), hit)
    {
      next, hit := out, None;
      if f.attacker !in fighters || !fighters[f.attacker].alive {
        return;
      }
      if f.weaponId !in weapons {
        return;
      }
      var weapon := weapons[f.weaponId];
      if tick < Get(nextFireTick, f.attacker, 0) {
        return;
      }
      ghost var before := Holding();
      Mark(tick, interval, f, weapon);
      var ray := Aim(f, weapon, before.fighters);
      hit := ray;
      if ray.Some? {
        next := StrikeNow(tick, interval, f, weapon, ray.value, out);
      }
    }

    method FireAllShots(tick: nat, interval: int, fires: seq<Fire>, start: Outcome) returns (out: Outcome, ghost hits: seq<Option<RayHit>>)
      modifies this`fighters, this`nextFireTick, this`pending
      ensures var (s, o) := FireAll(weapons, old(Holding()), start, tick, interval, fires, hits); Holding() == s && out == o
      ensures Admissible(geometry, weapons, old(Holding()), start, tick, interval, fires, hits)
    {
      out, hits := start, [];
      ghost var ready := Holding();
      for i := 0 to |fires|
        invariant ShotsFired(ready, start, tick, interval, fires[..i], hits, out)
      {
        ghost var hit: Option<RayHit>;
        out, hit := FireShot(tick, interval, fires[i], out);
        OneMoreShot(geometry, weapons, ready, start, tick, interval, fires, hits, hit, i);
        hits := hits + [hit];
      }
      assert fires[..|fires|] == fires;
    }

    ghost predicate ShotsFired(ready: State, start: Outcome, tick: nat, interval: int, fires: seq<Fire>, hits: seq<Option<RayHit>>, out: Outcome)
      reads this
    {
      && Admissible(geometry, weapons, ready, start, tick, interval, fires, hits)
      && (Holding(), out) == FireAll(weapons, ready, start, tick, interval, fires, hits)
    }

    /** One authoritative tick: a combat tick whose hits are admissible choices, in any table order. */
    method ResolveTick(tick: nat, interval: int) returns (out: Outcome, ghost hits: seq<Option<RayHit>>)
      requires DistinctHits(pending)
      modifies this
      ensures var (s, o) := CombatTick(weapons, old(Holding()), tick, interval, hits); Holding() == s && out == o
      ensures var (mid, o) := ResolveProjectiles(old(Holding()), tick);
              Admissible(geometry, weapons, mid.(queues := map[]), o, tick, interval, Drained(old(fireQueues)), hits)
    {
      var first := ResolveDue(tick);
      var fires := DrainDeterministic(fireQueues);
      fireQueues := map[];
      out, hits := FireAllShots(tick, interval, fires, first);
    }
  }

  lemma DueOrderIsUnique(due: seq<Hit>, sorted: seq<Hit>)
    requires DistinctHits(due) && multiset(sorted) == multiset(due) && SortedBy(HitLess, sorted)
    ensures sorted == Arranged(HitLess, due)
  {
    ArrangedIsSorted(HitLess, due);
    MultisetMembers(due, sorted);
    forall x, y | x in sorted && y in sorted && x != y ensures HitLess(x, y) || HitLess(y, x) {
      assert x in due && y in due;
      DistinctByKey(due, x, y);
    }
    SortedUnique(HitLess, sorted, Arranged(HitLess, due));
  }

  /** Noting the shot on the shooter changes nobody's standing as a target. */
  lemma SameTargets(g: Geometry, f: Fire, range: real, fighters: Fighters, positions: Positions)
    requires f.attacker in fighters
    ensures var shooter := fighters[f.attacker];
            var marked := fighters[f.attacker := shooter.(lastShotSeq := Max(shooter.lastShotSeq, f.shotSeq))];
            Targets(g, f, range, marked, positions) == Targets(g, f, range, fighters, positions)
  {
    var shooter := fighters[f.attacker];
    var marked := fighters[f.attacker := shooter.(lastShotSeq := Max(shooter.lastShotSeq, f.shotSeq))];
    forall id ensures IsTarget(g, f, range, marked, positions, id) <==> IsTarget(g, f, range, fighters, positions, id) {
      assert id != f.attacker && id in fighters ==> marked[id] == fighters[id];
    }
  }

  lemma {:induction false} ExtraHitsDoNotMatter(a: Arsenal, s: State, out: Outcome, tick: nat, interval: int, fires: seq<Fire>,
                                                hits: seq<Option<RayHit>>, more: seq<Option<RayHit>>)
    requires |hits| >= |fires|
    ensures FireAll(a, s, out, tick, interval, fires, hits + more) == FireAll(a, s, out, tick, interval, fires, hits)
  {
    if fires != [] { ExtraHitsDoNotMatter(a, s, out, tick, interval, fires[..|fires| - 1], hits, more); }
  }

  lemma OneMoreShot(g: Geometry, a: Arsenal, s: State, out: Outcome, tick: nat, interval: int, fires: seq<Fire>,
                    hits: seq<Option<RayHit>>, hit: Option<RayHit>, i: nat)
    requires i < |fires| && Admissible(g, a, s, out, tick, interval, fires[..i], hits)
    requires var t := FireAll(a, s, out, tick, interval, fires[..i], hits).0;
             Effective(a, t, tick, fires[i]) ==>
               CanBeHit(Targets(g, fires[i], a[fires[i].weaponId].range, t.fighters, t.positions), hit)
    ensures Admissible(g, a, s, out, tick, interval, fires[..i + 1], hits + [hit])
    ensures FireAll(a, s, out, tick, interval, fires[..i + 1], hits + [hit]) ==
            var (t, o) := FireAll(a, s, out, tick, interval, fires[..i], hits);
            FireOne(a, t, o, tick, interval, fires[i], hit)
  {
    var longer := fires[..i + 1];
    assert longer[..i] == fires[..i] && (hits + [hit])[..i] == hits;
    ExtraHitsDoNotMatter(a, s, out, tick, interval, fires[..i], hits, [hit]);
    assert Pick(hits + [hit], i) == hit;
  }
}
