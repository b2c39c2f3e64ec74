/** Combat over whole runs: cooldowns, flight times, and what must lie between two deaths. */
module CombatRuns {
  import opened Prelude
  import opened Sorting
  import opened Queues
  import opened Raycast
  import opened Combat
  import opened CombatInvariants

  /** What can happen to the combat simulation. */
  datatype Event =
    | Join(id: nat)
    | Leave(id: nat)
    | Revive(id: nat)
    | Move(id: nat, pos: (real, real))
    | Shoot(fire: Fire)
    | Tick(tick: nat, interval: int, hits: seq<Option<RayHit>>)

  /** The fixed surroundings of a run: the arsenal and the starting health. */
  datatype Rules = Rules(arsenal: Arsenal, health: int)

  ghost predicate Sane(r: Rules) { Armed(r.arsenal) && r.health > 0 }

  ghost function Step(r: Rules, s: State, e: Event): (State, Outcome) {
    match e
    case Join(id) => (s.(fighters := EnsureFighter(s.fighters, r.health, id)), NOTHING)
    case Leave(id) => (Remove(s, id), NOTHING)
    case Revive(id) => (Respawn(s, r.health, id), NOTHING)
    case Move(id, pos) => (Place(s, r.health, id, pos), NOTHING)
    case Shoot(fire) => (Enqueue(r.arsenal, r.health, s, fire), NOTHING)
    case Tick(tick, interval, hits) => CombatTick(r.arsenal, s, tick, interval, hits)
  }

  ghost function Run(r: Rules, s: State, events: seq<Event>): State
    decreases events
  {
    if events == [] then s else Run(r, Step(r, s, events[0]).0, events[1..])
  }

  ghost predicate Sound(r: Rules, s: State) { Healthy(r.health, s.fighters) && Numbered(s) }

  lemma {:induction false} WithoutKeeps(pending: seq<Hit>, attacker: Option<nat>, victim: nat)
    ensures forall h :: h in Without(pending, attacker, victim) <==>
              h in pending && h.victim != victim && Some(h.attacker) != attacker
  {
    if pending != [] {
      var n := |pending| - 1;
      assert pending == pending[..n] + [pending[n]];
      WithoutKeeps(pending[..n], attacker, victim);
    }
  }

  lemma {:induction false} WithoutMembers(pending: seq<Hit>, attacker: Option<nat>, victim: nat)
    ensures forall h :: h in Without(pending, attacker, victim) <==>
              h in pending && h.victim != victim && Some(h.attacker) != attacker
    ensures DistinctHits(pending) ==> DistinctHits(Without(pending, attacker, victim))
  {
    WithoutKeeps(pending, attacker, victim);
    if pending != [] && DistinctHits(pending) {
      var n := |pending| - 1;
      WithoutMembers(pending[..n], attacker, victim);
      WithoutKeeps(pending[..n], attacker, victim);
      forall h | h in Without(pending[..n], attacker, victim) ensures HitKey(h) != HitKey(pending[n]) {
        var i :| 0 <= i < n && pending[i] == h;
      }
    }
  }

  lemma EnqueueKeepsNumbers(a: Arsenal, health: int, s: State, f: Fire)
    requires Numbered(s)
    ensures Numbered(Enqueue(a, health, s, f))
  {
    if Verdict(a, s, f) == Accepted {
      var g := f.(weaponId := Lowercase(f.weaponId));
      AppendKeepsOrder(s.queues, g, FireOwner, FireNumber);
      NewestIsNewer(s.pending, s.queues, s.lastShotSeq, g);
      assert Enqueue(a, health, s, f).queues == s.queues[g.attacker := QueueOf(s.queues, g.attacker) + [g]];
    }
  }

  lemma NewestIsNewer(pending: seq<Hit>, q: Queues<Fire>, last: map<nat, nat>, f: Fire)
    requires QueuesCounted(q, last) && PendingCounted(pending, last) && PendingOlder(pending, q)
    requires f.attacker in last ==> f.shotSeq > last[f.attacker]
    ensures var r := q[f.attacker := QueueOf(q, f.attacker) + [f]];
            && QueuesCounted(r, last[f.attacker := f.shotSeq])
            && PendingCounted(pending, last[f.attacker := f.shotSeq])
            && PendingOlder(pending, r)
  {
  }

  lemma RemoveKeepsQueues(q: Queues<Fire>, last: map<nat, nat>, id: nat)
    requires InQueueOrder(q, FireOwner, FireNumber) && QueuesCounted(q, last)
    ensures InQueueOrder(q - {id}, FireOwner, FireNumber) && QueuesCounted(q - {id}, last - {id})
  {
    hide OwnInOrder;
  }

  lemma RemoveKeepsPending(s: State, id: nat)
    requires PendingCounted(s.pending, s.lastShotSeq) && PendingOlder(s.pending, s.queues) && DistinctHits(s.pending)
    ensures var t := Remove(s, id);
            PendingCounted(t.pending, t.lastShotSeq) && PendingOlder(t.pending, t.queues) && DistinctHits(t.pending)
  {
    hide Without, DistinctHits;
    WithoutMembers(s.pending, Some(id), id);
  }

  lemma RemoveKeepsNumbers(s: State, id: nat)
    requires Numbered(s)
    ensures Numbered(Remove(s, id))
  {
    hide Without, DistinctHits, InQueueOrder, QueuesCounted, PendingCounted, PendingOlder;
    RemoveKeepsQueues(s.queues, s.lastShotSeq, id);
    RemoveKeepsPending(s, id);
  }

  lemma RespawnKeepsNumbers(s: State, health: int, id: nat)
    requires Numbered(s)
    ensures Numbered(Respawn(s, health, id))
  {
    var rest := Without(s.pending, None, id);
    WithoutMembers(s.pending, None, id);
  }

  lemma StepKeepsNumbers(r: Rules, s: State, e: Event)
    requires Numbered(s)
    ensures Numbered(Step(r, s, e).0)
  {
    match e
    case Join(id) =>
    case Leave(id) => RemoveKeepsNumbers(s, id);
    case Revive(id) => RespawnKeepsNumbers(s, r.health, id);
    case Move(id, pos) =>
    case Shoot(fire) => EnqueueKeepsNumbers(r.arsenal, r.health, s, fire);
    case Tick(tick, interval, hits) => TickCountsShotsOnce(r.arsenal, s, tick, interval, hits);
  }

  lemma StepKeepsHealth(r: Rules, s: State, e: Event)
    requires r.health > 0 && Healthy(r.health, s.fighters)
    ensures Healthy(r.health, Step(r, s, e).0.fighters)
  {
    if e.Tick? { TickKeepsHealth(r.health, r.arsenal, s, e.tick, e.interval, e.hits); }
  }

  lemma StepIsSound(r: Rules, s: State, e: Event)
    requires Sane(r) && Sound(r, s)
    ensures Sound(r, Step(r, s, e).0)
  {
    StepKeepsNumbers(r, s, e);
    StepKeepsHealth(r, s, e);
  }

  /** In every reachable state health is in bounds, life means health, and shots are numbered once. */
  lemma {:induction false} RunsAreSound(r: Rules, s: State, events: seq<Event>)
    requires Sane(r) && Sound(r, s)
    ensures Sound(r, Run(r, s, events))
    decreases events
  {
    if events != [] {
      StepIsSound(r, s, events[0]);
      RunsAreSound(r, Step(r, s, events[0]).0, events[1..]);
    }
  }

  /** Every state a server can reach from its start is sound. */
  lemma RunsFromTheStart(r: Rules, events: seq<Event>)
    requires Sane(r)
    ensures Sound(r, Run(r, EMPTY, events)) && DistinctHits(Run(r, EMPTY, events).pending)
  {
    EmptyIsSound(r);
    RunsAreSound(r, EMPTY, events);
  }

  lemma EmptyIsSound(r: Rules)
    ensures Sound(r, EMPTY)
  {
  }

  // ---------------------------------------------------------------------------------------------
  // Between two deaths
  // ---------------------------------------------------------------------------------------------

  predicate Dies(out: Outcome, id: nat) { exists i :: 0 <= i < |out.deaths| && out.deaths[i].victim == id }

  predicate Rises(e: Event, id: nat) { (e.Revive? || e.Leave?) && e.id == id }

  /** Known and dead. */
  predicate Down(s: State, id: nat) { id in s.fighters && !s.fighters[id].alive }

  lemma {:induction false} DeathsAreOfFighters(f: Fighters, out: Outcome, tick: nat, hits: seq<Hit>)
    requires forall i :: 0 <= i < |out.deaths| ==> out.deaths[i].victim in f
    ensures var (g, o) := ApplyHits(f, out, tick, hits);
            g.Keys == f.Keys && forall i :: 0 <= i < |o.deaths| ==> o.deaths[i].victim in g
  {
    if hits != [] { DeathsAreOfFighters(f, out, tick, hits[..|hits| - 1]); }
  }

  lemma {:induction false} FiresKillFighters(a: Arsenal, s: State, out: Outcome, tick: nat, interval: int, fires: seq<Fire>, hits: seq<Option<RayHit>>)
    requires forall i :: 0 <= i < |out.deaths| ==> out.deaths[i].victim in s.fighters
    ensures var (t, o) := FireAll(a, s, out, tick, interval, fires, hits);
            t.fighters.Keys == s.fighters.Keys && forall i :: 0 <= i < |o.deaths| ==> o.deaths[i].victim in t.fighters
  {
    if fires != [] { FiresKillFighters(a, s, out, tick, interval, fires[..|fires| - 1], hits); }
  }

  /** Who dies in a tick was alive before it and is down after it. */
  lemma DeathTakesTheLiving(r: Rules, s: State, e: Event, id: nat)
    requires Sane(r) && Sound(r, s) && Dies(Step(r, s, e).1, id)
    ensures Down(Step(r, s, e).0, id)
    ensures Alive(s.fighters, id)
  {
    var (t, out) := Step(r, s, e);
    TickKeepsHealth(r.health, r.arsenal, s, e.tick, e.interval, e.hits);
    DeathsAreOfFighters(s.fighters, NOTHING, e.tick, DueHits(s, e.tick));
    var (mid, o) := ResolveProjectiles(s, e.tick);
    FiresKillFighters(r.arsenal, mid.(queues := map[]), o, e.tick, e.interval, Drained(s.queues), e.hits);
    VictimsWereAlive(r, s, e.tick, e.interval, e.hits, id);
  }

  lemma {:induction false} HitsKillTheLiving(f: Fighters, out: Outcome, tick: nat, hits: seq<Hit>, id: nat)
    requires !Alive(f, id)
    ensures var (g, o) := ApplyHits(f, out, tick, hits);
            !Alive(g, id) && (Dies(o, id) ==> Dies(out, id))
  {
    if hits != [] {
      var n := |hits| - 1;
      HitsKillTheLiving(f, out, tick, hits[..n], id);
      var (g, o) := ApplyHits(f, out, tick, hits[..n]);
      DamageKillsTheLiving(g, o, tick, hits[n], id);
    }
  }

  lemma DamageKillsTheLiving(f: Fighters, out: Outcome, tick: nat, h: Hit, id: nat)
    requires !Alive(f, id)
    ensures var (g, o) := ApplyDamage(f, out, tick, h);
            !Alive(g, id) && (Dies(o, id) ==> Dies(out, id))
  {
  }

  lemma {:induction false} FiresKillTheLiving(a: Arsenal, s: State, out: Outcome, tick: nat, interval: int, fires: seq<Fire>, hits: seq<Option<RayHit>>, id: nat)
    requires !Alive(s.fighters, id)
    ensures var (t, o) := FireAll(a, s, out, tick, interval, fires, hits);
            !Alive(t.fighters, id) && (Dies(o, id) ==> Dies(out, id))
  {
    if fires != [] {
      var n := |fires| - 1;
      FiresKillTheLiving(a, s, out, tick, interval, fires[..n], hits, id);
      var (t, o) := FireAll(a, s, out, tick, interval, fires[..n], hits);
      FireKillsTheLiving(a, t, o, tick, interval, fires[n], Pick(hits, n), id);
    }
  }

  lemma FireKillsTheLiving(a: Arsenal, s: State, out: Outcome, tick: nat, interval: int, f: Fire, hit: Option<RayHit>, id: nat)
    requires !Alive(s.fighters, id)
    ensures var (t, o) := FireOne(a, s, out, tick, interval, f, hit);
            !Alive(t.fighters, id) && (Dies(o, id) ==> Dies(out, id))
  {
    if Effective(a, s, tick, f) && hit.Some? && a[f.weaponId].kind == Hitscan {
      var w, shooter := a[f.weaponId], s.fighters[f.attacker];
      var marked := s.fighters[f.attacker := shooter.(lastShotSeq := Max(shooter.lastShotSeq, f.shotSeq))];
      DamageKillsTheLiving(marked, out, tick, Hit(tick, f.attacker, hit.value.victim, f.shotSeq, w.id, w.damage), id);
    }
  }

  /** Nobody dies who was not alive when the tick began. */
  lemma VictimsWereAlive(r: Rules, s: State, tick: nat, interval: int, hits: seq<Option<RayHit>>, id: nat)
    ensures var out := CombatTick(r.arsenal, s, tick, interval, hits).1; Dies(out, id) ==> Alive(s.fighters, id)
  {
    if !Alive(s.fighters, id) {
      HitsKillTheLiving(s.fighters, NOTHING, tick, DueHits(s, tick), id);
      var (mid, o) := ResolveProjectiles(s, tick);
      FiresKillTheLiving(r.arsenal, mid.(queues := map[]), o, tick, interval, Drained(s.queues), hits, id);
    }
  }

  lemma {:induction false} HitsReportTheFallen(f: Fighters, out: Outcome, tick: nat, hits: seq<Hit>, id: nat)
    ensures var (g, o) := ApplyHits(f, out, tick, hits);
            && (Alive(f, id) && !Alive(g, id) ==> Dies(o, id)) && (Dies(out, id) ==> Dies(o, id))
  {
    if hits != [] {
      var n := |hits| - 1;
      HitsReportTheFallen(f, out, tick, hits[..n], id);
      var (g, o) := ApplyHits(f, out, tick, hits[..n]);
      DamageReportsTheFallen(g, o, tick, hits[n], id);
    }
  }

  lemma DamageReportsTheFallen(f: Fighters, out: Outcome, tick: nat, h: Hit, id: nat)
    ensures var (g, o) := ApplyDamage(f, out, tick, h);
            && (Alive(f, id) && !Alive(g, id) ==> Dies(o, id)) && (Dies(out, id) ==> Dies(o, id))
  {
    var (g, o) := ApplyDamage(f, out, tick, h);
    if Dies(out, id) {
      var i :| 0 <= i < |out.deaths| && out.deaths[i].victim == id;
      assert o.deaths[i] == out.deaths[i];
    } else if Alive(f, id) && !Alive(g, id) {
      assert o.deaths[|o.deaths| - 1].victim == id;
    }
  }

  lemma FireReportsTheFallen(a: Arsenal, s: State, out: Outcome, tick: nat, interval: int, f: Fire, hit: Option<RayHit>, id: nat)
    ensures var (t, o) := FireOne(a, s, out, tick, interval, f, hit);
            && (Alive(s.fighters, id) && !Alive(t.fighters, id) ==> Dies(o, id)) && (Dies(out, id) ==> Dies(o, id))
  {
    if Effective(a, s, tick, f) && hit.Some? && a[f.weaponId].kind == Hitscan {
      var w, t := a[f.weaponId], Marked(s, tick, interval, f, a[f.weaponId]);
      assert Alive(t.fighters, id) <==> Alive(s.fighters, id);
      DamageReportsTheFallen(t.fighters, out, tick, Hit(tick, f.attacker, hit.value.victim, f.shotSeq, w.id, w.damage), id);
    }
  }

  lemma {:induction false} FiresReportTheFallen(a: Arsenal, s: State, out: Outcome, tick: nat, interval: int, fires: seq<Fire>, hits: seq<Option<RayHit>>, id: nat)
    ensures var (t, o) := FireAll(a, s, out, tick, interval, fires, hits);
            && (Alive(s.fighters, id) && !Alive(t.fighters, id) ==> Dies(o, id)) && (Dies(out, id) ==> Dies(o, id))
  {
    if fires != [] {
      var n := |fires| - 1;
      FiresReportTheFallen(a, s, out, tick, interval, fires[..n], hits, id);
      var (t, o) := FireAll(a, s, out, tick, interval, fires[..n], hits);
      FireReportsTheFallen(a, t, o, tick, interval, fires[n], Pick(hits, n), id);
    }
  }

  /** Among the known fighters exactly those fall in a tick who are listed as its deaths. */
  lemma FallenAreListed(r: Rules, s: State, tick: nat, interval: int, hits: seq<Option<RayHit>>, id: nat)
    requires Sane(r) && Sound(r, s)
    ensures var (t, out) := CombatTick(r.arsenal, s, tick, interval, hits);
            && t.fighters.Keys == s.fighters.Keys
            && (Dies(out, id) <==> Alive(s.fighters, id) && !Alive(t.fighters, id))
            && (Alive(t.fighters, id) ==> Alive(s.fighters, id))
  {
    TickKeepsHealth(r.health, r.arsenal, s, tick, interval, hits);
    HitsReportTheFallen(s.fighters, NOTHING, tick, DueHits(s, tick), id);
    var (mid, o) := ResolveProjectiles(s, tick);
    FiresReportTheFallen(r.arsenal, mid.(queues := map[]), o, tick, interval, Drained(s.queues), hits, id);
    if Dies(CombatTick(r.arsenal, s, tick, interval, hits).1, id) {
      VictimsWereAlive(r, s, tick, interval, hits, id);
    }
  }

  lemma DownStaysDown(r: Rules, s: State, e: Event, id: nat)
    requires Sane(r) && Sound(r, s) && Down(s, id) && !Rises(e, id)
    ensures Down(Step(r, s, e).0, id) && !Dies(Step(r, s, e).1, id)
  {
    if e.Tick? {
      TickLeavesDown(r, s, e.tick, e.interval, e.hits, id);
    }
  }

  lemma TickLeavesDown(r: Rules, s: State, tick: nat, interval: int, hits: seq<Option<RayHit>>, id: nat)
    requires Healthy(r.health, s.fighters) && Down(s, id)
    ensures var (t, out) := CombatTick(r.arsenal, s, tick, interval, hits); Down(t, id) && !Dies(out, id)
  {
    TickKeepsHealth(r.health, r.arsenal, s, tick, interval, hits);
    VictimsWereAlive(r, s, tick, interval, hits, id);
    assert !Alive(s.fighters, id);
  }

  /** Between two deaths of a player lies a respawn, or the player has left in between. */
  lemma {:induction false} DeathsNeedARise(r: Rules, s: State, events: seq<Event>, i: nat, j: nat, id: nat)
    requires Sane(r) && Sound(r, s) && i < j < |events|
    requires Dies(Step(r, Run(r, s, events[..i]), events[i]).1, id)
    requires Dies(Step(r, Run(r, s, events[..j]), events[j]).1, id)
    ensures exists k :: i < k < j && Rises(events[k], id)
  {
    hide Sound, Step;
    RunsAreSound(r, s, events[..i]);
    DeathTakesTheLiving(r, Run(r, s, events[..i]), events[i], id);
    RunSnoc(r, s, events[..i], events[i]);
    assert events[..i + 1] == events[..i] + [events[i]];
    if forall k :: i < k < j ==> !Rises(events[k], id) {
      StaysDown(r, s, events, i + 1, j, id);
      RunsAreSound(r, s, events[..j]);
      DeathTakesTheLiving(r, Run(r, s, events[..j]), events[j], id);
    }
  }

  lemma {:induction false} RunSnoc(r: Rules, s: State, events: seq<Event>, e: Event)
    ensures Run(r, s, events + [e]) == Step(r, Run(r, s, events), e).0
    decreases events
  {
    if events == [] {
      assert ([] + [e])[1..] == [];
    } else {
      assert (events + [e])[1..] == events[1..] + [e];
      RunSnoc(r, Step(r, s, events[0]).0, events[1..], e);
    }
  }

  lemma {:induction false} StaysDown(r: Rules, s: State, events: seq<Event>, i: nat, j: nat, id: nat)
    requires Sane(r) && Sound(r, s) && i <= j <= |events|
    requires Down(Run(r, s, events[..i]), id) && forall k :: i <= k < j ==> !Rises(events[k], id)
    ensures Down(Run(r, s, events[..j]), id)
  {
    if i < j {
      StaysDown(r, s, events, i, j - 1, id);
      RunsAreSound(r, s, events[..j - 1]);
      DownStaysDown(r, Run(r, s, events[..j - 1]), events[j - 1], id);
      assert events[..j] == events[..j - 1] + [events[j - 1]];
      RunSnoc(r, s, events[..j - 1], events[j - 1]);
    }
  }

  // ---------------------------------------------------------------------------------------------
  // Cooldown
  // ---------------------------------------------------------------------------------------------

  /** An effective shot: when, and how long its weapon then needs. */
  datatype Shot = Shot(tick: nat, cooldown: nat)

  /** The effective shots of one attacker in a tick. */
  function ShotsOf(a: Arsenal, s: State, out: Outcome, tick: nat, interval: int, fires: seq<Fire>, hits: seq<Option<RayHit>>, id: nat): seq<Shot> {
    if fires == [] then []
    else
      var n := |fires| - 1;
      var (t, o) := FireAll(a, s, out, tick, interval, fires[..n], hits);
      ShotsOf(a, s, out, tick, interval, fires[..n], hits, id) +
      if fires[n].attacker == id && Effective(a, t, tick, fires[n])
      then [Shot(tick, CooldownTicks(a[fires[n].weaponId].rateOfFire, interval))] else []
  }

  /** The attacker's effective shots since it last left. */
  ghost function LogStep(r: Rules, s: State, e: Event, id: nat, log: seq<Shot>): seq<Shot> {
    match e
    case Leave(p) => if p == id then [] else log
    case Tick(tick, interval, hits) =>
      var (mid, out) := ResolveProjectiles(s, tick);
      log + ShotsOf(r.arsenal, mid.(queues := map[]), out, tick, interval, Drained(s.queues), hits, id)
    case _ => log
  }

  ghost function Log(r: Rules, s: State, events: seq<Event>, id: nat, log: seq<Shot>): seq<Shot>
    decreases events
  {
    if events == [] then log else Log(r, Step(r, s, events[0]).0, events[1..], id, LogStep(r, s, events[0], id, log))
  }

  /** Each shot waits out the cooldown of every shot before it. */
  ghost predicate Spaced(log: seq<Shot>) {
    && (forall i :: 0 <= i < |log| ==> log[i].cooldown >= 1)
    && forall i, j :: 0 <= i < j < |log| ==> log[i].tick + log[i].cooldown <= log[j].tick
  }

  ghost predicate Cooling(s: State, id: nat, log: seq<Shot>) {
    && Spaced(log)
    && (log == [] ==> id !in s.nextFire)
    && (log != [] ==> id in s.nextFire && s.nextFire[id] == log[|log| - 1].tick + log[|log| - 1].cooldown)
  }

  lemma {:induction false} FiresCool(a: Arsenal, s: State, out: Outcome, tick: nat, interval: int, fires: seq<Fire>, hits: seq<Option<RayHit>>, id: nat, log: seq<Shot>)
    requires Cooling(s, id, log)
    ensures Cooling(FireAll(a, s, out, tick, interval, fires, hits).0, id, log + ShotsOf(a, s, out, tick, interval, fires, hits, id))
  {
    if fires == [] {
      assert log + [] == log;
    } else {
      hide Cooling;
      var n := |fires| - 1;
      FiresCool(a, s, out, tick, interval, fires[..n], hits, id, log);
      var (t, o) := FireAll(a, s, out, tick, interval, fires[..n], hits);
      var before := log + ShotsOf(a, s, out, tick, interval, fires[..n], hits, id);
      FireCools(a, t, o, tick, interval, fires[n], Pick(hits, n), id, before);
      var more := if fires[n].attacker == id && Effective(a, t, tick, fires[n])
                  then [Shot(tick, CooldownTicks(a[fires[n].weaponId].rateOfFire, interval))] else [];
      assert before + more == log + ShotsOf(a, s, out, tick, interval, fires, hits, id);
    }
  }

  lemma FireCools(a: Arsenal, s: State, out: Outcome, tick: nat, interval: int, f: Fire, hit: Option<RayHit>, id: nat, log: seq<Shot>)
    requires Cooling(s, id, log)
    ensures Cooling(FireOne(a, s, out, tick, interval, f, hit).0, id,
                    log + if f.attacker == id && Effective(a, s, tick, f)
                          then [Shot(tick, CooldownTicks(a[f.weaponId].rateOfFire, interval))] else [])
  {
    if f.attacker == id && Effective(a, s, tick, f) {
      SpacedAppend(log, Shot(tick, CooldownTicks(a[f.weaponId].rateOfFire, interval)));
    } else {
      assert log + [] == log;
    }
  }

  lemma SpacedAppend(log: seq<Shot>, shot: Shot)
    requires Spaced(log) && shot.cooldown >= 1
    requires log != [] ==> log[|log| - 1].tick + log[|log| - 1].cooldown <= shot.tick
    ensures Spaced(log + [shot])
  {
    forall i | 0 <= i < |log| ensures log[i].tick + log[i].cooldown <= shot.tick {
      assert i < |log| - 1 ==> log[i].tick + log[i].cooldown <= log[|log| - 1].tick;
    }
  }

  lemma StepCools(r: Rules, s: State, e: Event, id: nat, log: seq<Shot>)
    requires Cooling(s, id, log)
    ensures Cooling(Step(r, s, e).0, id, LogStep(r, s, e, id, log))
  {
    if e.Tick? {
      var (mid, out) := ResolveProjectiles(s, e.tick);
      FiresCool(r.arsenal, mid.(queues := map[]), out, e.tick, e.interval, Drained(s.queues), e.hits, id, log);
    }
  }

  /**
   * Over any run, an attacker's effective shots since it last left are at least the earlier weapon's
   * cooldown apart; in particular there is at most one per tick.
   */
  lemma {:induction false} CooldownsAreKept(r: Rules, s: State, events: seq<Event>, id: nat, log: seq<Shot>)
    requires Cooling(s, id, log)
    ensures Cooling(Run(r, s, events), id, Log(r, s, events, id, log))
    decreases events
  {
    if events != [] {
      StepCools(r, s, events[0], id, log);
      CooldownsAreKept(r, Step(r, s, events[0]).0, events[1..], id, LogStep(r, s, events[0], id, log));
    }
  }

  // ---------------------------------------------------------------------------------------------
  // Flight
  // ---------------------------------------------------------------------------------------------

  /** The flight time is the least whole number of ticks, at least one, in which the distance can be covered. */
  lemma TravelDelayIsLeast(distance: real, speed: real, interval: int, n: nat)
    requires distance >= 0.0 && speed > 0.0 && interval > 0 && n >= 1
    ensures TravelDelayTicks(distance, speed, interval) <= n <==> distance <= n as real * Seconds(interval) * speed
  {
    var t := distance / speed;
    CeilAtMost(t / Seconds(interval), n);
  }

  /** A cooldown is the least whole number of ticks, at least one, that lasts as long as one shot takes at the weapon's rate. */
  lemma CooldownIsLeast(rate: real, interval: int, n: nat)
    requires rate > 0.0 && interval > 0 && n >= 1
    ensures CooldownTicks(rate, interval) <= n <==> 1.0 <= n as real * Seconds(interval) * rate
  {
    var t := 1.0 / rate;
    CeilAtMost(t / Seconds(interval), n);
  }

  lemma CeilAtMost(x: real, n: int)
    ensures Ceil(x) <= n <==> x <= n as real
  {
  }

  ghost predicate AllLater(s: State, tick: nat) { forall h :: h in s.pending ==> h.resolveTick > tick }

  lemma {:induction false} FiresLandLater(a: Arsenal, s: State, out: Outcome, tick: nat, interval: int, fires: seq<Fire>, hits: seq<Option<RayHit>>)
    requires AllLater(s, tick)
    ensures var t := FireAll(a, s, out, tick, interval, fires, hits).0;
            AllLater(t, tick) && forall h :: h in s.pending ==> h in t.pending
  {
    if fires != [] { FiresLandLater(a, s, out, tick, interval, fires[..|fires| - 1], hits); }
  }

  /** After a tick is resolved, everything in the air is due strictly later. */
  lemma TickLeavesOnlyLater(a: Arsenal, s: State, tick: nat, interval: int, hits: seq<Option<RayHit>>)
    ensures var t := CombatTick(a, s, tick, interval, hits).0;
            AllLater(t, tick) && forall h :: h in s.pending && h.resolveTick > tick ==> h in t.pending
  {
    SelectMembers(s.pending, tick, false);
    var (mid, out) := ResolveProjectiles(s, tick);
    FiresLandLater(a, mid.(queues := map[]), out, tick, interval, Drained(s.queues), hits);
  }

  /** The event in which a hit shows. */
  predicate Shows(out: Outcome, tick: nat, h: Hit) {
    exists i :: 0 <= i < |out.damages| && Records(out.damages[i], tick, h)
  }

  predicate Records(d: Damage, tick: nat, h: Hit) {
    && d.tick == tick && d.attacker == h.attacker && d.victim == h.victim && d.shotSeq == h.shotSeq
    && d.weaponId == h.weaponId && d.damage == h.damage
  }

  predicate Extends(longer: Outcome, out: Outcome) { out.damages <= longer.damages }

  /** The fighters as the n-th of the hits finds them. */
  function Before(f: Fighters, tick: nat, hits: seq<Hit>, n: nat): Fighters
    requires n <= |hits|
  {
    ApplyHits(f, NOTHING, tick, hits[..n]).0
  }

  lemma ShowsLater(out: Outcome, longer: Outcome, tick: nat, h: Hit)
    requires Shows(out, tick, h) && Extends(longer, out)
    ensures Shows(longer, tick, h)
  {
    var i :| 0 <= i < |out.damages| && Records(out.damages[i], tick, h);
    assert longer.damages[i] == out.damages[i];
  }

  /** A hit that finds its victim alive shows. */
  lemma {:induction false} HitIsApplied(f: Fighters, tick: nat, hits: seq<Hit>, n: nat)
    requires n < |hits| && hits[n].damage > 0 && Alive(Before(f, tick, hits, n), hits[n].victim)
    ensures Shows(ApplyHits(f, NOTHING, tick, hits).1, tick, hits[n])
  {
    var m := |hits| - 1;
    var (g, o) := ApplyHits(f, NOTHING, tick, hits[..m]);
    var (g', o') := ApplyDamage(g, o, tick, hits[m]);
    if n == m {
      assert Records(o'.damages[|o'.damages| - 1], tick, hits[n]);
    } else {
      assert hits[..m][..n] == hits[..n];
      HitIsApplied(f, tick, hits[..m], n);
      ShowsLater(o, o', tick, hits[n]);
    }
  }

  /** A hit that finds its victim down leaves no damage of its shot. */
  lemma {:induction false} HitIsSkipped(f: Fighters, tick: nat, hits: seq<Hit>, n: nat)
    requires n < |hits| && DistinctHits(hits) && !Alive(Before(f, tick, hits, n), hits[n].victim)
    ensures HitKey(hits[n]) !in DamageKeys(ApplyHits(f, NOTHING, tick, hits).1.damages)
  {
    var m := |hits| - 1;
    var (g, o) := ApplyHits(f, NOTHING, tick, hits[..m]);
    if n == m {
      HitsAreNew(f, tick, hits[..m]);
      forall h | h in hits[..m] ensures HitKey(h) != HitKey(hits[m]) {
        var i :| 0 <= i < m && hits[..m][i] == h;
        assert hits[i] == h;
      }
    } else {
      assert hits[..m][..n] == hits[..n];
      HitIsSkipped(f, tick, hits[..m], n);
      DamageAddsOwnKey(g, o, tick, hits[m]);
    }
  }

  lemma DamageAddsOwnKey(f: Fighters, out: Outcome, tick: nat, h: Hit)
    ensures DamageKeys(ApplyDamage(f, out, tick, h).1.damages) <= DamageKeys(out.damages) + {HitKey(h)}
  {
  }

  lemma FireAddsOwnKey(a: Arsenal, s: State, out: Outcome, tick: nat, interval: int, f: Fire, hit: Option<RayHit>)
    ensures DamageKeys(FireOne(a, s, out, tick, interval, f, hit).1.damages) <= DamageKeys(out.damages) + {FireKey(f)}
  {
    if Effective(a, s, tick, f) && hit.Some? && a[f.weaponId].kind == Hitscan {
      var w, t := a[f.weaponId], Marked(s, tick, interval, f, a[f.weaponId]);
      DamageAddsOwnKey(t.fighters, out, tick, Hit(tick, f.attacker, hit.value.victim, f.shotSeq, w.id, w.damage));
    }
  }

  lemma {:induction false} FiresAddOwnKeys(a: Arsenal, s: State, out: Outcome, tick: nat, interval: int, fires: seq<Fire>, hits: seq<Option<RayHit>>, key: ShotKey)
    requires key !in DamageKeys(out.damages) && forall f :: f in fires ==> FireKey(f) != key
    ensures key !in DamageKeys(FireAll(a, s, out, tick, interval, fires, hits).1.damages)
  {
    if fires != [] {
      var n := |fires| - 1;
      FiresAddOwnKeys(a, s, out, tick, interval, fires[..n], hits, key);
      var (t, o) := FireAll(a, s, out, tick, interval, fires[..n], hits);
      FireAddsOwnKey(a, t, o, tick, interval, fires[n], Pick(hits, n));
    }
  }

  lemma {:induction false} FiresExtend(a: Arsenal, s: State, out: Outcome, tick: nat, interval: int, fires: seq<Fire>, hits: seq<Option<RayHit>>)
    ensures Extends(FireAll(a, s, out, tick, interval, fires, hits).1, out)
  {
    if fires != [] { FiresExtend(a, s, out, tick, interval, fires[..|fires| - 1], hits); }
  }

  /** The n-th of the hits due in a tick finds its victim alive when its turn comes. */
  predicate AliveAtTurn(s: State, tick: nat, n: nat)
    requires n < |DueHits(s, tick)|
  {
    Alive(Before(s.fighters, tick, DueHits(s, tick), n), DueHits(s, tick)[n].victim)
  }

  /** A due hit shows in its tick exactly when it finds its victim alive; showing it does so whatever the numbering. */
  lemma DueHitLands(r: Rules, s: State, e: Event, n: nat)
    requires e.Tick? && n < |DueHits(s, e.tick)| && DueHits(s, e.tick)[n].damage > 0
    ensures AliveAtTurn(s, e.tick, n) ==> Shows(Step(r, s, e).1, e.tick, DueHits(s, e.tick)[n])
    ensures Numbered(s) ==> (Shows(Step(r, s, e).1, e.tick, DueHits(s, e.tick)[n]) <==> AliveAtTurn(s, e.tick, n))
  {
    var due := DueHits(s, e.tick);
    var (mid, o) := ResolveProjectiles(s, e.tick);
    if AliveAtTurn(s, e.tick, n) {
      HitIsApplied(s.fighters, e.tick, due, n);
      FiresExtend(r.arsenal, mid.(queues := map[]), o, e.tick, e.interval, Drained(s.queues), e.hits);
      ShowsLater(o, Step(r, s, e).1, e.tick, due[n]);
    } else if Numbered(s) {
      SkippedHitStaysHidden(r, s, e, n);
    }
  }

  lemma SkippedHitStaysHidden(r: Rules, s: State, e: Event, n: nat)
    requires e.Tick? && Numbered(s) && n < |DueHits(s, e.tick)| && !AliveAtTurn(s, e.tick, n)
    ensures !Shows(Step(r, s, e).1, e.tick, DueHits(s, e.tick)[n])
  {
    var due := DueHits(s, e.tick);
    var h := due[n];
    var (mid, o) := ResolveProjectiles(s, e.tick);
    DueMembers(s, e.tick);
    assert h in due;
    HitIsSkipped(s.fighters, e.tick, due, n);
    DrainedAreUnused(s);
    assert HitKey(h) in HitKeys(s.pending);
    FiresAddOwnKeys(r.arsenal, mid.(queues := map[]), o, e.tick, e.interval, Drained(s.queues), e.hits, HitKey(h));
    KeyUnseen(Step(r, s, e).1, e.tick, h);
  }

  lemma KeyUnseen(out: Outcome, tick: nat, h: Hit)
    requires HitKey(h) !in DamageKeys(out.damages)
    ensures !Shows(out, tick, h)
  {
    forall i | 0 <= i < |out.damages| ensures !Records(out.damages[i], tick, h) {
      assert DamageKey(out.damages[i]) in DamageKeys(out.damages);
    }
  }

  /** Consecutive tick numbers after `tick`. */
  predicate GapFree(tick: nat, events: seq<Event>)
    decreases events
  {
    events == [] ||
    if events[0].Tick? then events[0].tick == tick + 1 && GapFree(tick + 1, events[1..]) else GapFree(tick, events[1..])
  }

  function Clock(tick: nat, events: seq<Event>): nat
    decreases events
  {
    if events == [] then tick else Clock(if events[0].Tick? then events[0].tick else tick, events[1..])
  }

  /** Somebody the hit concerns leaves, or its victim is respawned. */
  predicate Interferes(e: Event, h: Hit) {
    (e.Leave? && (e.id == h.attacker || e.id == h.victim)) || (e.Revive? && e.id == h.victim)
  }

  ghost predicate LandsAt(r: Rules, s: State, events: seq<Event>, k: nat, h: Hit)
    requires k < |events|
  {
    && events[k].Tick? && events[k].tick == h.resolveTick
    && h in Run(r, s, events[..k]).pending
    && exists n :: LandsAsDue(r, Run(r, s, events[..k]), events[k], h, n)
  }

  /** The hit has the n-th turn of its tick, and shows if, in a sound state exactly if, it finds its victim alive. */
  ghost predicate LandsAsDue(r: Rules, s: State, e: Event, h: Hit, n: nat) {
    && n < |DueHits(s, h.resolveTick)| && DueHits(s, h.resolveTick)[n] == h
    && (AliveAtTurn(s, h.resolveTick, n) ==> Shows(Step(r, s, e).1, h.resolveTick, h))
    && (Numbered(s) ==> (Shows(Step(r, s, e).1, h.resolveTick, h) <==> AliveAtTurn(s, h.resolveTick, n)))
  }

  /**
   * On consecutive ticks a projectile stays in the air until exactly its due tick, and shows there exactly when it
   * finds its victim alive, unless somebody it concerns leaves or its victim is respawned in between.
   */
  lemma {:induction false} HitLandsOnTime(r: Rules, s: State, tick: nat, events: seq<Event>, h: Hit)
    requires h in s.pending && AllLater(s, tick) && h.damage > 0 && GapFree(tick, events)
    requires forall i :: 0 <= i < |events| ==> !Interferes(events[i], h)
    requires Clock(tick, events) >= h.resolveTick
    ensures exists k :: 0 <= k < |events| && LandsAt(r, s, events, k, h)
    decreases events
  {
    var e := events[0];
    if e.Tick? && e.tick == h.resolveTick {
      DueMembers(s, e.tick);
      var n :| 0 <= n < |DueHits(s, e.tick)| && DueHits(s, e.tick)[n] == h;
      DueHitLands(r, s, e, n);
      assert LandsAsDue(r, s, e, h, n);
      assert events[..0] == [];
      assert LandsAt(r, s, events, 0, h);
    } else {
      var next := if e.Tick? then e.tick else tick;
      OthersKeepHit(r, s, tick, e, h);
      var t := Step(r, s, e).0;
      HitLandsOnTime(r, t, next, events[1..], h);
      var k :| 0 <= k < |events| - 1 && LandsAt(r, t, events[1..], k, h);
      LandsOneLater(r, s, events, k, h);
    }
  }

  lemma LandsOneLater(r: Rules, s: State, events: seq<Event>, k: nat, h: Hit)
    requires k + 1 < |events| && LandsAt(r, Step(r, s, events[0]).0, events[1..], k, h)
    ensures LandsAt(r, s, events, k + 1, h)
  {
    assert events[..k + 1][1..] == events[1..][..k];
    assert Run(r, s, events[..k + 1]) == Run(r, Step(r, s, events[0]).0, events[1..][..k]);
  }

  lemma OthersKeepHit(r: Rules, s: State, tick: nat, e: Event, h: Hit)
    requires h in s.pending && AllLater(s, tick) && !Interferes(e, h)
    requires e.Tick? ==> e.tick == tick + 1 && e.tick != h.resolveTick
    ensures h in Step(r, s, e).0.pending && AllLater(Step(r, s, e).0, if e.Tick? then e.tick else tick)
  {
    match e
    case Join(id) =>
    case Leave(id) => WithoutMembers(s.pending, Some(id), id);
    case Revive(id) => WithoutMembers(s.pending, None, id);
    case Move(id, pos) =>
    case Shoot(fire) =>
    case Tick(t, interval, hits) => TickLeavesOnlyLater(r.arsenal, s, t, interval, hits);
  }

  // ---------------------------------------------------------------------------------------------
  // From the shot to the hit
  // ---------------------------------------------------------------------------------------------

  /** The projectile of a shot fired in this tick at what its ray met. */
  function Projectile(w: Weapon, f: Fire, ray: RayHit, tick: nat, interval: int): Hit {
    Hit(tick + TravelDelayTicks(ray.distance, w.speed, interval), f.attacker, ray.victim, f.shotSeq, w.id, w.damage)
  }

  /** The n-th of the shots takes effect, is a projectile's, and its ray meets somebody. */
  ghost predicate TakesOff(a: Arsenal, s: State, out: Outcome, tick: nat, interval: int, fires: seq<Fire>, hits: seq<Option<RayHit>>, n: nat)
    requires n < |fires|
  {
    && Effective(a, FireAll(a, s, out, tick, interval, fires[..n], hits).0, tick, fires[n])
    && a[fires[n].weaponId].kind == WeaponClass.Projectile && Pick(hits, n).Some?
  }

  lemma {:induction false} ShotTakesOff(a: Arsenal, s: State, out: Outcome, tick: nat, interval: int, fires: seq<Fire>, hits: seq<Option<RayHit>>, n: nat)
    requires n < |fires| && TakesOff(a, s, out, tick, interval, fires, hits, n)
    ensures Projectile(a[fires[n].weaponId], fires[n], Pick(hits, n).value, tick, interval)
            in FireAll(a, s, out, tick, interval, fires, hits).0.pending
  {
    var m := |fires| - 1;
    if n < m {
      assert fires[..m][..n] == fires[..n];
      ShotTakesOff(a, s, out, tick, interval, fires[..m], hits, n);
      var (t, o) := FireAll(a, s, out, tick, interval, fires[..m], hits);
    }
  }

  /** The n-th queued shot of a tick takes off in it. */
  ghost predicate ShotTakesOffIn(r: Rules, s: State, e: Event, n: nat)
    requires e.Tick? && n < |Drained(s.queues)|
  {
    var (mid, out) := ResolveProjectiles(s, e.tick);
    TakesOff(r.arsenal, mid.(queues := map[]), out, e.tick, e.interval, Drained(s.queues), e.hits, n)
  }

  /**
   * A projectile shot in tick T at a victim at distance d lands in exactly tick T + max(1, ceil(d / (speed * tick))):
   * ticks being consecutive, and unless somebody it concerns leaves or its victim is respawned, it shows there exactly when
   * it finds its victim alive.
   */
  lemma ShotLandsOnTime(r: Rules, s: State, e: Event, n: nat, later: seq<Event>)
    requires Sane(r) && e.Tick? && n < |Drained(s.queues)| && ShotTakesOffIn(r, s, e, n)
    requires GapFree(e.tick, later)
    ensures r.arsenal[Drained(s.queues)[n].weaponId].speed > 0.0
    ensures var f, ray := Drained(s.queues)[n], Pick(e.hits, n).value;
            var h := Projectile(r.arsenal[f.weaponId], f, ray, e.tick, e.interval);
            && h in Step(r, s, e).0.pending
            && ((forall i :: 0 <= i < |later| ==> !Interferes(later[i], h)) && Clock(e.tick, later) >= h.resolveTick ==>
                  exists k :: 0 <= k < |later| && LandsAt(r, Step(r, s, e).0, later, k, h))
  {
    var f, ray := Drained(s.queues)[n], Pick(e.hits, n).value;
    var h := Projectile(r.arsenal[f.weaponId], f, ray, e.tick, e.interval);
    var (mid, out) := ResolveProjectiles(s, e.tick);
    ShotTakesOff(r.arsenal, mid.(queues := map[]), out, e.tick, e.interval, Drained(s.queues), e.hits, n);
    TickLeavesOnlyLater(r.arsenal, s, e.tick, e.interval, e.hits);
    if (forall i :: 0 <= i < |later| ==> !Interferes(later[i], h)) && Clock(e.tick, later) >= h.resolveTick {
      HitLandsOnTime(r, Step(r, s, e).0, e.tick, later, h);
    }
  }

  /** The flight time of that shot, as a formula. */
  lemma FlightTimeFormula(distance: real, speed: real, interval: int)
    requires distance >= 0.0 && speed > 0.0 && interval > 0
    ensures speed * Seconds(interval) > 0.0
    ensures TravelDelayTicks(distance, speed, interval) == Max(1, Ceil(distance / (speed * Seconds(interval))))
  {
    DividedTwice(distance, speed, Seconds(interval));
  }

  lemma DividedTwice(x: real, a: real, b: real)
    requires a > 0.0 && b > 0.0
    ensures a * b > 0.0 && x / a / b == x / (a * b)
  {
    var p, q, k := x / a / b, x / (a * b), a * b;
    assert p * b == x / a;
    assert p * k == (p * b) * a == x;
    assert q * k == x;
    assert (p - q) * k == 0.0;
  }
}
