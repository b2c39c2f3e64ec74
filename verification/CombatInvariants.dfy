/** What every combat operation keeps, and what every tick's events satisfy. */
module CombatInvariants {
  import opened Prelude
  import opened Sorting
  import opened Ids
  import opened Queues
  import opened Raycast
  import opened Combat

  // ---------------------------------------------------------------------------------------------
  // Health
  // ---------------------------------------------------------------------------------------------

  predicate HealthyOne(start: int, f: Fighter) { 0 <= f.health <= start && (f.alive <==> f.health > 0) }

  ghost predicate Healthy(start: int, f: Fighters) { forall id :: id in f ==> HealthyOne(start, f[id]) }

  /** The lethal damage events, as deaths, in order. */
  function DeathsOf(damages: seq<Damage>): seq<Death> {
    if damages == [] then []
    else
      var d := damages[|damages| - 1];
      DeathsOf(damages[..|damages| - 1]) + if d.lethal then [Death(d.tick, d.victim, d.attacker, d.shotSeq, d.weaponId)] else []
  }

  /** Deaths are the lethal damages; no victim twice; every victim so far is down, and stamped with this tick. */
  ghost predicate Consistent(f: Fighters, out: Outcome, tick: nat) {
    && out.deaths == DeathsOf(out.damages)
    && (forall i, j :: 0 <= i < j < |out.deaths| ==> out.deaths[i].victim != out.deaths[j].victim)
    && (forall i :: 0 <= i < |out.deaths| ==> !Alive(f, out.deaths[i].victim))
    && (forall i :: 0 <= i < |out.damages| ==> out.damages[i].tick == tick && (out.damages[i].lethal <==> out.damages[i].victimHealth == 0))
  }

  lemma DamageKeeps(start: int, f: Fighters, out: Outcome, tick: nat, h: Hit)
    requires Healthy(start, f) && Consistent(f, out, tick)
    ensures var (g, o) := ApplyDamage(f, out, tick, h);
            Healthy(start, g) && Consistent(g, o, tick) && g.Keys == f.Keys
    ensures var (g, o) := ApplyDamage(f, out, tick, h);
            forall id :: Alive(g, id) ==> Alive(f, id)
  {
    var (g, o) := ApplyDamage(f, out, tick, h);
    if Alive(f, h.victim) && h.damage > 0 {
      assert o.damages[..|o.damages| - 1] == out.damages;
    }
  }

  lemma {:induction false} HitsKeep(start: int, f: Fighters, out: Outcome, tick: nat, hits: seq<Hit>)
    requires Healthy(start, f) && Consistent(f, out, tick)
    ensures var (g, o) := ApplyHits(f, out, tick, hits);
            Healthy(start, g) && Consistent(g, o, tick) && g.Keys == f.Keys
    ensures var (g, o) := ApplyHits(f, out, tick, hits);
            forall id :: Alive(g, id) ==> Alive(f, id)
  {
    if hits != [] {
      var n := |hits| - 1;
      HitsKeep(start, f, out, tick, hits[..n]);
      var (g, o) := ApplyHits(f, out, tick, hits[..n]);
      DamageKeeps(start, g, o, tick, hits[n]);
    }
  }

  lemma FireKeeps(start: int, a: Arsenal, s: State, out: Outcome, tick: nat, interval: int, f: Fire, hit: Option<RayHit>)
    requires Healthy(start, s.fighters) && Consistent(s.fighters, out, tick)
    ensures var (t, o) := FireOne(a, s, out, tick, interval, f, hit);
            Healthy(start, t.fighters) && Consistent(t.fighters, o, tick) && t.fighters.Keys == s.fighters.Keys
    ensures var (t, o) := FireOne(a, s, out, tick, interval, f, hit);
            forall id :: Alive(t.fighters, id) ==> Alive(s.fighters, id)
  {
    if Effective(a, s, tick, f) {
      var w, shooter := a[f.weaponId], s.fighters[f.attacker];
      var marked := s.fighters[f.attacker := shooter.(lastShotSeq := Max(shooter.lastShotSeq, f.shotSeq))];
      assert forall id :: Alive(marked, id) <==> Alive(s.fighters, id);
      assert Healthy(start, marked) && Consistent(marked, out, tick);
      if hit.Some? && w.kind == Hitscan {
        DamageKeeps(start, marked, out, tick, Hit(tick, f.attacker, hit.value.victim, f.shotSeq, w.id, w.damage));
      }
    }
  }

  lemma {:induction false} FiresKeep(start: int, a: Arsenal, s: State, out: Outcome, tick: nat, interval: int, fires: seq<Fire>, hits: seq<Option<RayHit>>)
    requires Healthy(start, s.fighters) && Consistent(s.fighters, out, tick)
    ensures var (t, o) := FireAll(a, s, out, tick, interval, fires, hits);
            Healthy(start, t.fighters) && Consistent(t.fighters, o, tick) && t.fighters.Keys == s.fighters.Keys
    ensures var (t, o) := FireAll(a, s, out, tick, interval, fires, hits);
            forall id :: Alive(t.fighters, id) ==> Alive(s.fighters, id)
  {
    if fires != [] {
      var n := |fires| - 1;
      FiresKeep(start, a, s, out, tick, interval, fires[..n], hits);
      var (t, o) := FireAll(a, s, out, tick, interval, fires[..n], hits);
      FireKeeps(start, a, t, o, tick, interval, fires[n], Pick(hits, n));
    }
  }

  /**
   * Whatever the shots hit: health stays in bounds and positive exactly for the living, the tick's
   * deaths are its lethal damages in order, nobody dies twice in it, and nobody comes back in it.
   */
  lemma TickKeepsHealth(start: int, a: Arsenal, s: State, tick: nat, interval: int, hits: seq<Option<RayHit>>)
    requires Healthy(start, s.fighters)
    ensures var (t, out) := CombatTick(a, s, tick, interval, hits);
            Healthy(start, t.fighters) && Consistent(t.fighters, out, tick) && t.fighters.Keys == s.fighters.Keys
    ensures var (t, out) := CombatTick(a, s, tick, interval, hits);
            forall id :: Alive(t.fighters, id) ==> Alive(s.fighters, id)
  {
    HitsKeep(start, s.fighters, NOTHING, tick, DueHits(s, tick));
    var (t, out) := ResolveProjectiles(s, tick);
    FiresKeep(start, a, t.(queues := map[]), out, tick, interval, Drained(s.queues), hits);
  }

  // ---------------------------------------------------------------------------------------------
  // No shot is counted twice
  // ---------------------------------------------------------------------------------------------

  function FireOwner(f: Fire): nat { f.attacker }

  function FireNumber(f: Fire): nat { f.shotSeq }

  /** A shot is named by its attacker and sequence number. */
  type ShotKey = (nat, nat)

  function FireKey(f: Fire): ShotKey { (f.attacker, f.shotSeq) }

  function HitKey(h: Hit): ShotKey { (h.attacker, h.shotSeq) }

  function DamageKey(d: Damage): ShotKey { (d.attacker, d.shotSeq) }

  function HitKeys(s: seq<Hit>): set<ShotKey> { set h | h in s :: HitKey(h) }

  function DamageKeys(s: seq<Damage>): set<ShotKey> { set d | d in s :: DamageKey(d) }

  ghost predicate DistinctHits(s: seq<Hit>) { forall i, j :: 0 <= i < j < |s| ==> HitKey(s[i]) != HitKey(s[j]) }

  ghost predicate DistinctDamages(s: seq<Damage>) { forall i, j :: 0 <= i < j < |s| ==> DamageKey(s[i]) != DamageKey(s[j]) }

  /** Queued shots are in order per attacker, and every pending projectile is older than its attacker's queue. */
  ghost predicate Numbered(s: State) {
    && InQueueOrder(s.queues, FireOwner, FireNumber)
    && DistinctHits(s.pending)
    && QueuesCounted(s.queues, s.lastShotSeq)
    && PendingCounted(s.pending, s.lastShotSeq)
    && PendingOlder(s.pending, s.queues)
  }

  ghost predicate QueuesCounted(q: Queues<Fire>, last: map<nat, nat>) {
    forall p :: p in q && q[p] != [] ==> p in last && q[p][|q[p]| - 1].shotSeq <= last[p]
  }

  ghost predicate PendingCounted(pending: seq<Hit>, last: map<nat, nat>) {
    forall h :: h in pending ==> h.attacker in last && h.shotSeq <= last[h.attacker]
  }

  ghost predicate PendingOlder(pending: seq<Hit>, q: Queues<Fire>) {
    forall h, f :: h in pending && f in QueueOf(q, h.attacker) ==> h.shotSeq < f.shotSeq
  }

  lemma {:induction false} SelectMembers(pending: seq<Hit>, tick: nat, due: bool)
    ensures forall h :: h in Select(pending, tick, due) <==> h in pending && (h.resolveTick <= tick) == due
    ensures DistinctHits(pending) ==> DistinctHits(Select(pending, tick, due))
  {
    if pending != [] {
      var n := |pending| - 1;
      assert pending == pending[..n] + [pending[n]];
      SelectMembers(pending[..n], tick, due);
      if DistinctHits(pending) {
        forall h | h in Select(pending[..n], tick, due) ensures HitKey(h) != HitKey(pending[n]) {
          var i :| 0 <= i < n && pending[i] == h;
        }
      }
    }
  }

  lemma DueMembers(s: State, tick: nat)
    ensures forall h :: h in DueHits(s, tick) <==> h in s.pending && h.resolveTick <= tick
    ensures DistinctHits(s.pending) ==> DistinctHits(DueHits(s, tick))
  {
    var due := Select(s.pending, tick, true);
    SelectMembers(s.pending, tick, true);
    ArrangedIsSorted(HitLess, due);
    MultisetMembers(due, DueHits(s, tick));
    if DistinctHits(s.pending) {
      forall i, j | 0 <= i < j < |DueHits(s, tick)| ensures HitKey(DueHits(s, tick)[i]) != HitKey(DueHits(s, tick)[j]) {
        SortKeepsDistinct(due, DueHits(s, tick), i, j);
        var x, y := DueHits(s, tick)[i], DueHits(s, tick)[j];
        assert x in due && y in due;
        DistinctByKey(due, x, y);
      }
    }
  }

  lemma DistinctByKey(s: seq<Hit>, x: Hit, y: Hit)
    requires DistinctHits(s) && x in s && y in s && x != y
    ensures HitKey(x) != HitKey(y)
  {
    var i :| 0 <= i < |s| && s[i] == x;
    var j :| 0 <= j < |s| && s[j] == y;
    assert i < j || j < i;
  }

  lemma DamageIsNew(f: Fighters, out: Outcome, tick: nat, h: Hit)
    requires DistinctDamages(out.damages) && HitKey(h) !in DamageKeys(out.damages)
    ensures var (_, o) := ApplyDamage(f, out, tick, h);
            DistinctDamages(o.damages) && DamageKeys(o.damages) <= DamageKeys(out.damages) + {HitKey(h)}
  {
    var (_, o) := ApplyDamage(f, out, tick, h);
    forall i | 0 <= i < |out.damages| ensures DamageKey(out.damages[i]) != HitKey(h) {
      assert DamageKey(out.damages[i]) in DamageKeys(out.damages);
    }
  }

  lemma {:induction false} HitsAreNew(f: Fighters, tick: nat, hits: seq<Hit>)
    requires DistinctHits(hits)
    ensures var (_, o) := ApplyHits(f, NOTHING, tick, hits);
            DistinctDamages(o.damages) && DamageKeys(o.damages) <= HitKeys(hits)
  {
    if hits != [] {
      var n := |hits| - 1;
      HitsAreNew(f, tick, hits[..n]);
      var (g, o) := ApplyHits(f, NOTHING, tick, hits[..n]);
      assert hits == hits[..n] + [hits[n]];
      assert HitKeys(hits) == HitKeys(hits[..n]) + {HitKey(hits[n])};
      assert HitKey(hits[n]) !in HitKeys(hits[..n]) by {
        forall i | 0 <= i < n ensures HitKey(hits[..n][i]) != HitKey(hits[n]) { assert hits[..n][i] == hits[i]; }
      }
      DamageIsNew(g, o, tick, hits[n]);
    }
  }

  /** No key of the rest of the tick's shots has been used by a damage or a pending projectile. */
  ghost predicate Unused(fires: seq<Fire>, from: nat, s: State, out: Outcome) {
    && DistinctDamages(out.damages) && DistinctHits(s.pending)
    && forall i :: from <= i < |fires| ==> FireKey(fires[i]) !in DamageKeys(out.damages) && FireKey(fires[i]) !in HitKeys(s.pending)
  }

  lemma FireUsesOwnKey(a: Arsenal, s: State, out: Outcome, tick: nat, interval: int, f: Fire, hit: Option<RayHit>)
    requires DistinctDamages(out.damages) && DistinctHits(s.pending)
    requires FireKey(f) !in DamageKeys(out.damages) && FireKey(f) !in HitKeys(s.pending)
    ensures var (t, o) := FireOne(a, s, out, tick, interval, f, hit);
            && DistinctDamages(o.damages) && DamageKeys(o.damages) <= DamageKeys(out.damages) + {FireKey(f)}
            && DistinctHits(t.pending) && HitKeys(t.pending) <= HitKeys(s.pending) + {FireKey(f)}
            && (forall h :: h in t.pending ==> h in s.pending || HitKey(h) == FireKey(f))
            && t.queues == s.queues && t.lastShotSeq == s.lastShotSeq
  {
    if Effective(a, s, tick, f) && hit.Some? {
      var w, shooter := a[f.weaponId], s.fighters[f.attacker];
      var marked := s.fighters[f.attacker := shooter.(lastShotSeq := Max(shooter.lastShotSeq, f.shotSeq))];
      if w.kind == Hitscan {
        DamageIsNew(marked, out, tick, Hit(tick, f.attacker, hit.value.victim, f.shotSeq, w.id, w.damage));
      } else {
        forall i | 0 <= i < |s.pending| ensures HitKey(s.pending[i]) != FireKey(f) {
          assert HitKey(s.pending[i]) in HitKeys(s.pending);
        }
      }
    }
  }

  lemma {:induction false} FiresUseOwnKeys(a: Arsenal, s: State, out: Outcome, tick: nat, interval: int, fires: seq<Fire>, hits: seq<Option<RayHit>>)
    requires Unused(fires, 0, s, out) && DrainOrder(fires, FireOwner, FireNumber)
    ensures var (t, o) := FireAll(a, s, out, tick, interval, fires, hits);
            && DistinctDamages(o.damages) && DistinctHits(t.pending)
            && (forall h :: h in t.pending ==> h in s.pending || exists f :: f in fires && HitKey(h) == FireKey(f))
            && t.queues == s.queues && t.lastShotSeq == s.lastShotSeq
  {
    FirePrefixUsesOwnKeys(a, s, out, tick, interval, fires, hits, |fires|);
    assert fires[..|fires|] == fires;
  }

  lemma {:induction false} FirePrefixUsesOwnKeys(a: Arsenal, s: State, out: Outcome, tick: nat, interval: int, fires: seq<Fire>, hits: seq<Option<RayHit>>, n: nat)
    requires n <= |fires| && Unused(fires, 0, s, out) && DrainOrder(fires, FireOwner, FireNumber)
    ensures var (t, o) := FireAll(a, s, out, tick, interval, fires[..n], hits);
            && Unused(fires, n, t, o)
            && (forall h :: h in t.pending ==> h in s.pending || exists f :: f in fires && HitKey(h) == FireKey(f))
            && t.queues == s.queues && t.lastShotSeq == s.lastShotSeq
  {
    if n > 0 {
      assert fires[..n][..n - 1] == fires[..n - 1];
      FirePrefixUsesOwnKeys(a, s, out, tick, interval, fires, hits, n - 1);
      var (t, o) := FireAll(a, s, out, tick, interval, fires[..n - 1], hits);
      FireUsesOwnKey(a, t, o, tick, interval, fires[n - 1], Pick(hits, n - 1));
      forall i | n <= i < |fires| ensures FireKey(fires[i]) != FireKey(fires[n - 1]) {
        assert OwnerThenNumber(fires[n - 1], fires[i], FireOwner, FireNumber);
      }
    }
  }

  /** The drained shots are new with respect to everything in the air. */
  lemma DrainedAreUnused(s: State)
    requires Numbered(s)
    ensures DrainOrder(Drained(s.queues), FireOwner, FireNumber)
    ensures forall f :: f in Drained(s.queues) ==>
              FireKey(f) !in HitKeys(s.pending) && f.attacker in s.lastShotSeq && f.shotSeq <= s.lastShotSeq[f.attacker]
  {
    DrainedInOrder(s.queues, FireOwner, FireNumber);
    forall f | f in Drained(s.queues)
      ensures FireKey(f) !in HitKeys(s.pending) && f.attacker in s.lastShotSeq && f.shotSeq <= s.lastShotSeq[f.attacker]
    {
      QueuedShot(s, f);
    }
  }

  lemma QueuedShot(s: State, f: Fire)
    requires Numbered(s) && f in QueueOf(s.queues, FireOwner(f))
    ensures FireKey(f) !in HitKeys(s.pending) && f.attacker in s.lastShotSeq && f.shotSeq <= s.lastShotSeq[f.attacker]
  {
    assert OwnInOrder(s.queues[f.attacker], f.attacker, FireOwner, FireNumber);
  }

  lemma ProjectilesLeaveShotsUnused(s: State, tick: nat)
    requires Numbered(s)
    ensures var (mid, out) := ResolveProjectiles(s, tick);
            && Unused(Drained(s.queues), 0, mid.(queues := map[]), out)
            && (forall h :: h in mid.pending ==> h in s.pending) && mid.lastShotSeq == s.lastShotSeq
  {
    DueMembers(s, tick);
    SelectMembers(s.pending, tick, false);
    DrainedAreUnused(s);
    HitsAreNew(s.fighters, tick, DueHits(s, tick));
    KeysOfSubset(DueHits(s, tick), s.pending);
    KeysOfSubset(Select(s.pending, tick, false), s.pending);
  }

  /** No tick emits two damage events for one shot, and the numbering is kept. */
  lemma TickCountsShotsOnce(a: Arsenal, s: State, tick: nat, interval: int, hits: seq<Option<RayHit>>)
    requires Numbered(s)
    ensures var (t, out) := CombatTick(a, s, tick, interval, hits);
            DistinctDamages(out.damages) && Numbered(t)
  {
    var fires := Drained(s.queues);
    var (mid, out) := ResolveProjectiles(s, tick);
    ProjectilesLeaveShotsUnused(s, tick);
    DrainedAreUnused(s);
    FiresUseOwnKeys(a, mid.(queues := map[]), out, tick, interval, fires, hits);
    StillNumbered(s, CombatTick(a, s, tick, interval, hits).0, fires);
  }

  lemma StillNumbered(s: State, t: State, fires: seq<Fire>)
    requires Numbered(s) && t.queues == map[] && t.lastShotSeq == s.lastShotSeq && DistinctHits(t.pending)
    requires forall h :: h in t.pending ==> h in s.pending || exists f :: f in fires && HitKey(h) == FireKey(f)
    requires forall f :: f in fires ==> f.attacker in s.lastShotSeq && f.shotSeq <= s.lastShotSeq[f.attacker]
    ensures Numbered(t)
  {
    forall h | h in t.pending ensures h.attacker in t.lastShotSeq && h.shotSeq <= t.lastShotSeq[h.attacker] {
      if h !in s.pending { var f :| f in fires && HitKey(h) == FireKey(f); }
    }
  }

  lemma KeysOfSubset(a: seq<Hit>, b: seq<Hit>)
    requires forall h :: h in a ==> h in b
    ensures HitKeys(a) <= HitKeys(b)
  {
  }

  /** Two damage events of one tick never share (tick, attacker, victim, shot number). */
  lemma NoDuplicateDamage(a: Arsenal, s: State, tick: nat, interval: int, hits: seq<Option<RayHit>>, i: nat, j: nat)
    requires Numbered(s)
    requires var out := CombatTick(a, s, tick, interval, hits).1; i < j < |out.damages|
    ensures var d := CombatTick(a, s, tick, interval, hits).1.damages;
            (d[i].attacker, d[i].shotSeq) != (d[j].attacker, d[j].shotSeq)
  {
    TickCountsShotsOnce(a, s, tick, interval, hits);
    var d := CombatTick(a, s, tick, interval, hits).1.damages;
    assert DamageKey(d[i]) != DamageKey(d[j]);
  }
}
