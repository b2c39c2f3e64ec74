/** Health by the damage events: what each costs, when it kills, what a shot and a weapon do. */
module HealthLedger {
  import opened Prelude
  import opened Sorting
  import opened Queues
  import opened Raycast
  import opened Combat
  import opened CombatInvariants
  import opened CombatRuns

  // ---------------------------------------------------------------------------------------------
  // One tick
  // ---------------------------------------------------------------------------------------------

  /** The damage that the listed events did to a player. */
  function Against(damages: seq<Damage>, id: nat): int {
    if damages == [] then 0
    else
      var last := damages[|damages| - 1];
      Against(damages[..|damages| - 1], id) + if last.victim == id then last.damage else 0
  }

  function HealthOf(f: Fighters, id: nat): int { if id in f then f[id].health else 0 }

  /** The i-th event hurts somebody standing, says what is left of its health, and kills exactly if nothing is. */
  predicate Tells(f: Fighters, damages: seq<Damage>, i: nat)
    requires i < |damages|
  {
    var d := damages[i];
    && d.victim in f && d.damage > 0
    && HealthOf(f, d.victim) > Against(damages[..i], d.victim) >= 0
    && d.victimHealth == Max(0, HealthOf(f, d.victim) - Against(damages[..i], d.victim) - d.damage)
    && (d.lethal <==> Against(damages[..i], d.victim) + d.damage >= HealthOf(f, d.victim))
  }

  /** From these fighters to those: health is what the events left of it, and every event tells the truth. */
  ghost predicate Ledgered(f: Fighters, g: Fighters, damages: seq<Damage>) {
    && g.Keys == f.Keys
    && (forall id :: id in g ==> g[id].health == Max(0, f[id].health - Against(damages, id)) && Against(damages, id) >= 0)
    && (forall i :: 0 <= i < |damages| ==> Tells(f, damages, i))
  }

  lemma TellsStill(f: Fighters, damages: seq<Damage>, d: Damage, i: nat)
    requires i < |damages| && Tells(f, damages, i)
    ensures Tells(f, damages + [d], i)
  {
    assert (damages + [d])[..i] == damages[..i];
  }

  lemma AgainstOneMore(damages: seq<Damage>, d: Damage, id: nat)
    ensures Against(damages + [d], id) == Against(damages, id) + if d.victim == id then d.damage else 0
  {
    assert (damages + [d])[..|damages|] == damages;
  }

  /** One more event, telling the truth, whose damage is taken off its victim. */
  lemma LedgerGrows(f: Fighters, g: Fighters, k: Fighters, damages: seq<Damage>, d: Damage)
    requires Ledgered(f, g, damages) && Tells(f, damages + [d], |damages|)
    requires k.Keys == g.Keys
    requires forall id :: id in k ==> k[id].health == if id == d.victim then Max(0, g[id].health - d.damage) else g[id].health
    ensures Ledgered(f, k, damages + [d])
  {
    assert d.damage > 0 && (damages + [d])[|damages|] == d;
    hide Against, Tells;
    forall i | 0 <= i < |damages| + 1 ensures Tells(f, damages + [d], i) {
      if i < |damages| { TellsStill(f, damages, d, i); }
    }
    forall id | id in k
      ensures k[id].health == Max(0, f[id].health - Against(damages + [d], id)) && Against(damages + [d], id) >= 0
    {
      AgainstOneMore(damages, d, id);
    }
  }

  lemma DamageIsLedgered(start: int, f: Fighters, g: Fighters, out: Outcome, tick: nat, h: Hit)
    requires Ledgered(f, g, out.damages) && Healthy(start, g) && Healthy(start, f)
    ensures var (k, o) := ApplyDamage(g, out, tick, h); Ledgered(f, k, o.damages)
  {
    if Alive(g, h.victim) && h.damage > 0 {
      hide Against;
      var (k, o) := ApplyDamage(g, out, tick, h);
      var d := o.damages[|out.damages|];
      assert o.damages == out.damages + [d] && o.damages[..|out.damages|] == out.damages;
      assert HealthyOne(start, g[h.victim]);
      assert Tells(f, out.damages + [d], |out.damages|);
      hide Ledgered, Tells;
      LedgerGrows(f, g, k, out.damages, d);
    }
  }

  lemma {:induction false} HitsAreLedgered(start: int, f: Fighters, tick: nat, hits: seq<Hit>)
    requires Healthy(start, f)
    ensures var (g, o) := ApplyHits(f, NOTHING, tick, hits); Ledgered(f, g, o.damages)
  {
    if hits == [] {
      assert Ledgered(f, f, []);
    } else {
      hide ApplyDamage, Ledgered, Healthy, Consistent;
      var n := |hits| - 1;
      HitsAreLedgered(start, f, tick, hits[..n]);
      var (g, o) := ApplyHits(f, NOTHING, tick, hits[..n]);
      NothingIsConsistent(f, tick);
      HitsKeep(start, f, NOTHING, tick, hits[..n]);
      DamageIsLedgered(start, f, g, o, tick, hits[n]);
    }
  }

  lemma NothingIsConsistent(f: Fighters, tick: nat)
    ensures Consistent(f, NOTHING, tick)
  {
  }

  lemma FireIsLedgered(start: int, f: Fighters, a: Arsenal, s: State, out: Outcome, tick: nat, interval: int, fire: Fire, hit: Option<RayHit>)
    requires Ledgered(f, s.fighters, out.damages) && Healthy(start, s.fighters) && Healthy(start, f)
    ensures var (t, o) := FireOne(a, s, out, tick, interval, fire, hit); Ledgered(f, t.fighters, o.damages)
  {
    if Effective(a, s, tick, fire) {
      var marked := Marked(s, tick, interval, fire, a[fire.weaponId]);
      assert Healthy(start, marked.fighters);
      assert Ledgered(f, marked.fighters, out.damages) by { hide Tells, Against; }
      if hit.Some? {
        var w := a[fire.weaponId];
        DamageIsLedgered(start, f, marked.fighters, out, tick, Hit(tick, fire.attacker, hit.value.victim, fire.shotSeq, w.id, w.damage));
      }
      hide Ledgered, Healthy, ApplyDamage, Marked;
    }
  }

  lemma {:induction false} FiresAreLedgered(start: int, f: Fighters, a: Arsenal, s: State, out: Outcome, tick: nat, interval: int,
                                            fires: seq<Fire>, hits: seq<Option<RayHit>>)
    requires Ledgered(f, s.fighters, out.damages) && Healthy(start, s.fighters) && Healthy(start, f) && Consistent(s.fighters, out, tick)
    ensures var (t, o) := FireAll(a, s, out, tick, interval, fires, hits); Ledgered(f, t.fighters, o.damages)
  {
    hide FireOne, Ledgered, Healthy, Consistent;
    if fires != [] {
      var n := |fires| - 1;
      FiresAreLedgered(start, f, a, s, out, tick, interval, fires[..n], hits);
      FiresKeep(start, a, s, out, tick, interval, fires[..n], hits);
      var (t, o) := FireAll(a, s, out, tick, interval, fires[..n], hits);
      FireIsLedgered(start, f, a, t, o, tick, interval, fires[n], Pick(hits, n));
    }
  }

  /** A tick takes off each fighter's health exactly the damage of its events, and each event says what is left. */
  lemma TickIsLedgered(start: int, a: Arsenal, s: State, tick: nat, interval: int, hits: seq<Option<RayHit>>)
    requires Healthy(start, s.fighters)
    ensures var (t, out) := CombatTick(a, s, tick, interval, hits); Ledgered(s.fighters, t.fighters, out.damages)
  {
    hide Ledgered, Healthy, Consistent, ApplyHits, FireAll;
    var due := DueHits(s, tick);
    NothingIsConsistent(s.fighters, tick);
    HitsAreLedgered(start, s.fighters, tick, due);
    HitsKeep(start, s.fighters, NOTHING, tick, due);
    var (t, out) := ResolveProjectiles(s, tick);
    FiresAreLedgered(start, s.fighters, a, t.(queues := map[]), out, tick, interval, Drained(s.queues), hits);
  }

  // ---------------------------------------------------------------------------------------------
  // Whole runs
  // ---------------------------------------------------------------------------------------------

  /** The damage done to a player since it arrived or was last respawned, by the events given out. */
  ghost function TakenAfter(r: Rules, s: State, taken: int, e: Event, id: nat): int {
    match e
    case Revive(other) => if other == id then 0 else taken
    case Leave(other) => if other == id then 0 else taken
    case Tick(_, _, _) => taken + Against(Step(r, s, e).1.damages, id)
    case _ => taken
  }

  ghost function Taken(r: Rules, s: State, taken: int, events: seq<Event>, id: nat): int
    decreases events
  {
    if events == [] then taken else Taken(r, Step(r, s, events[0]).0, TakenAfter(r, s, taken, events[0], id), events[1..], id)
  }

  /** What is left of the starting health; and nobody who is not there has taken anything. */
  predicate Owes(r: Rules, s: State, taken: int, id: nat) {
    if id in s.fighters then taken >= 0 && s.fighters[id].health == Max(0, r.health - taken) else taken == 0
  }

  lemma NobodyElseIsHurt(f: Fighters, damages: seq<Damage>, id: nat)
    requires id !in f && forall i :: 0 <= i < |damages| ==> Tells(f, damages, i)
    ensures Against(damages, id) == 0
  {
    var n := |damages| - 1;
    if damages != [] {
      forall i | 0 <= i < n ensures Tells(f, damages[..n], i) {
        assert damages[..n][..i] == damages[..i];
        assert Tells(f, damages, i);
      }
      assert Tells(f, damages, n);
      NobodyElseIsHurt(f, damages[..n], id);
    }
  }

  lemma StepOwes(r: Rules, s: State, taken: int, e: Event, id: nat)
    requires Sane(r) && Sound(r, s) && Owes(r, s, taken, id)
    ensures Owes(r, Step(r, s, e).0, TakenAfter(r, s, taken, e, id), id)
  {
    if e.Tick? {
      TickIsLedgered(r.health, r.arsenal, s, e.tick, e.interval, e.hits);
      hide CombatTick, Tells;
      if id !in s.fighters { NobodyElseIsHurt(s.fighters, Step(r, s, e).1.damages, id); }
    } else {
      hide Verdict, Numbered;
    }
  }

  /**
   * Over any run from the empty server a fighter's health is the starting health less the damage of the events against it
   * since it arrived or was last respawned, and not below 0.
   */
  lemma {:induction false} HealthIsWhatIsLeft(r: Rules, s: State, taken: int, events: seq<Event>, id: nat)
    requires Sane(r) && Sound(r, s) && Owes(r, s, taken, id)
    ensures Owes(r, Run(r, s, events), Taken(r, s, taken, events, id), id)
    decreases events
  {
    hide Step, Sound;
    if events != [] {
      StepOwes(r, s, taken, events[0], id);
      StepIsSound(r, s, events[0]);
      HealthIsWhatIsLeft(r, Step(r, s, events[0]).0, TakenAfter(r, s, taken, events[0], id), events[1..], id);
    }
  }

  lemma HealthFromTheStart(r: Rules, events: seq<Event>, id: nat)
    requires Sane(r)
    ensures Owes(r, Run(r, EMPTY, events), Taken(r, EMPTY, 0, events, id), id)
  {
    EmptyIsSound(r);
    HealthIsWhatIsLeft(r, EMPTY, 0, events, id);
  }

  /**
   * In the tick after any run, the i-th event against somebody gives the health left after all damage since its arrival or
   * last respawn, that event included, and kills in exactly the event with which the damage reaches the starting health.
   */
  lemma EventsTellTheRun(r: Rules, events: seq<Event>, e: Event, i: nat)
    requires Sane(r) && e.Tick?
    requires i < |Step(r, Run(r, EMPTY, events), e).1.damages|
    ensures var s := Run(r, EMPTY, events);
            var damages := Step(r, s, e).1.damages;
            var d := damages[i];
            var before := Taken(r, EMPTY, 0, events, d.victim) + Against(damages[..i], d.victim);
            && d.damage > 0 && before < r.health
            && d.victimHealth == Max(0, r.health - before - d.damage)
            && (d.lethal <==> before + d.damage >= r.health)
  {
    hide Run, Step, Taken, Sound, Owes, Against;
    var s := Run(r, EMPTY, events);
    RunsFromTheStart(r, events);
    HealthFromTheStart(r, events, Step(r, s, e).1.damages[i].victim);
    EventTellsTheStep(r, s, e, Taken(r, EMPTY, 0, events, Step(r, s, e).1.damages[i].victim), i);
  }

  lemma EventTellsTheStep(r: Rules, s: State, e: Event, taken: int, i: nat)
    requires Sane(r) && Sound(r, s) && e.Tick? && i < |Step(r, s, e).1.damages| && Owes(r, s, taken, Step(r, s, e).1.damages[i].victim)
    ensures var damages := Step(r, s, e).1.damages;
            var d := damages[i];
            var before := taken + Against(damages[..i], d.victim);
            && d.damage > 0 && before < r.health
            && d.victimHealth == Max(0, r.health - before - d.damage)
            && (d.lethal <==> before + d.damage >= r.health)
  {
    hide CombatTick, Against;
    TickIsLedgered(r.health, r.arsenal, s, e.tick, e.interval, e.hits);
    assert Tells(s.fighters, Step(r, s, e).1.damages, i);
  }

  /** Whoever arrives or is respawned has the starting health and stands. */
  lemma NewcomersAreWhole(r: Rules, s: State, e: Event, id: nat)
    requires Sane(r) && Sound(r, s) && id in Step(r, s, e).0.fighters
    requires id !in s.fighters || e == Revive(id)
    ensures Step(r, s, e).0.fighters[id].health == r.health && Alive(Step(r, s, e).0.fighters, id)
  {
    if e.Tick? {
      TickIsLedgered(r.health, r.arsenal, s, e.tick, e.interval, e.hits);
      assert false;
    } else {
      hide Verdict;
    }
  }

  /** Due hits are applied in the order of their ticks, within a tick by attacker, and of one attacker by shot. */
  lemma DueHitsComeInOrder(s: State, tick: nat, i: nat, j: nat)
    requires i < j < |DueHits(s, tick)|
    ensures var a, b := DueHits(s, tick)[i], DueHits(s, tick)[j];
            && a.resolveTick <= b.resolveTick
            && (a.resolveTick == b.resolveTick ==> a.attacker <= b.attacker)
            && (a.resolveTick == b.resolveTick && a.attacker == b.attacker ==> a.shotSeq <= b.shotSeq)
  {
    ArrangedIsSorted(HitLess, Select(s.pending, tick, true));
  }

  // ---------------------------------------------------------------------------------------------
  // Shots and weapons
  // ---------------------------------------------------------------------------------------------

  /** The n-th shot of a tick takes effect, is a hitscan weapon's, and its ray meets somebody. */
  ghost predicate StrikesAtOnce(a: Arsenal, s: State, out: Outcome, tick: nat, interval: int, fires: seq<Fire>, hits: seq<Option<RayHit>>, n: nat)
    requires n < |fires|
  {
    && Effective(a, FireAll(a, s, out, tick, interval, fires[..n], hits).0, tick, fires[n])
    && a[fires[n].weaponId].kind == WeaponClass.Hitscan && Pick(hits, n).Some?
  }

  /** The event of a hitscan shot: the one its ray met, the weapon's damage, in this tick. */
  predicate IsHitOf(d: Damage, w: Weapon, f: Fire, ray: RayHit, tick: nat) {
    && d.attacker == f.attacker && d.victim == ray.victim && d.shotSeq == f.shotSeq
    && d.weaponId == w.id && d.damage == w.damage && d.tick == tick
  }

  /** Such a shot at whatever place of the drain hits at once whom its ray met, if that one still stands. */
  lemma {:induction false} HitscanStrikes(a: Arsenal, s: State, out: Outcome, tick: nat, interval: int, fires: seq<Fire>,
                                          hits: seq<Option<RayHit>>, n: nat)
    requires Armed(a) && n < |fires| && StrikesAtOnce(a, s, out, tick, interval, fires, hits, n)
    ensures var (t, o) := FireAll(a, s, out, tick, interval, fires[..n], hits);
            var damages := FireAll(a, s, out, tick, interval, fires, hits).1.damages;
            Alive(t.fighters, Pick(hits, n).value.victim) ==>
              |o.damages| < |damages| && damages[..|o.damages|] == o.damages
              && IsHitOf(damages[|o.damages|], a[fires[n].weaponId], fires[n], Pick(hits, n).value, tick)
  {
    var m := |fires| - 1;
    var (u, before) := FireAll(a, s, out, tick, interval, fires[..m], hits);
    if n < m {
      assert fires[..m][..n] == fires[..n];
      HitscanStrikes(a, s, out, tick, interval, fires[..m], hits, n);
      FireExtends(a, u, before, tick, interval, fires[m], Pick(hits, m));
    }
  }

  lemma FireExtends(a: Arsenal, s: State, out: Outcome, tick: nat, interval: int, f: Fire, hit: Option<RayHit>)
    ensures out.damages <= FireOne(a, s, out, tick, interval, f, hit).1.damages
  {
  }

  /** What a definition makes: a projectile exactly if it says so in whatever case, with the defaults of its kind. */
  lemma WeaponsAreAsDefined(d: WeaponDefinition, c: Config)
    requires Usable(d) && Sensible(c)
    ensures var w := ToWeapon(d, c);
            && w.damage == d.damagePerShot
            && (w.kind == WeaponClass.Projectile <==> Lowercase(d.kind) == "projectile")
            && (d.rateOfFire > 0.0 ==> w.rateOfFire == d.rateOfFire) && (d.rateOfFire <= 0.0 ==> w.rateOfFire == 1.0)
            && (d.range > 0.0 ==> w.range == d.range)
            && (d.range <= 0.0 ==> w.range == if w.kind == WeaponClass.Projectile then c.projectileRange else c.hitscanRange)
            && (w.kind == WeaponClass.Projectile ==>
                  (d.projectileSpeed > 0.0 ==> w.speed == d.projectileSpeed)
                  && (d.projectileSpeed <= 0.0 ==> w.speed == c.projectileSpeed))
            && (w.kind == WeaponClass.Hitscan ==> w.speed == 0.0)
  {
  }
}
