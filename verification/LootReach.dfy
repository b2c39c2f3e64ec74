/** What a pickup takes, in positions and sums; where drops lie; and what the schedule lays out, and when. */
module LootReach {
  import opened Prelude
  import opened Ids
  import opened Queues
  import opened Reals
  import Combat
  import opened Loot
  import opened LootRuns

  function Square(a: real): real { a * a }

  function DistanceSq(a: (real, real), b: (real, real)): real { Square(a.0 - b.0) + Square(a.1 - b.1) }

  /** The slack the source leaves on the squared radius. */
  const REACH_EPSILON := 0.000001

  // ---------------------------------------------------------------------------------------------
  // Who gets what
  // ---------------------------------------------------------------------------------------------

  /** The answer to a pickup. */
  function Status(c: Config, w: Work, p: Pickup): Loot.Status
  {
    var v := Resolve(c, w, p);
    assert |v.results| == |w.results| + 1;
    v.results[|w.results|].status
  }

  /** For a player and a spawn that are there: each of the four answers, by distance, number of items and summed weight. */
  lemma AnswerIsExact(c: Config, w: Work, p: Pickup)
    requires Orderly(c, w.s) && p.player in w.s.players && w.s.players[p.player].alive && p.spawn in w.s.active
    ensures var h, spawn := w.s.players[p.player], w.s.active[p.spawn];
            var near := DistanceSq(spawn.pos, h.pos) <= Square(c.radius) + REACH_EPSILON;
            var room := |h.items| < c.maxItems;
            var light := WeightOf(h.items) + spawn.treasure.weight <= c.maxWeight;
            && (Status(c, w, p) == Collected <==> near && room && light)
            && (Status(c, w, p) == OutOfRange <==> !near)
            && (Status(c, w, p) == InventoryCapacityExceeded <==> near && !room)
            && (Status(c, w, p) == WeightLimitExceeded <==> near && room && !light)
  {
    hide Provenance;
    assert Books(c, w.s.players[p.player]);
  }

  /** Standing on a treasure with room for it is enough. */
  lemma WhoeverStandsOnItGetsIt(c: Config, w: Work, p: Pickup)
    requires Orderly(c, w.s) && p.player in w.s.players && w.s.players[p.player].alive && p.spawn in w.s.active
    requires var h, spawn := w.s.players[p.player], w.s.active[p.spawn];
             spawn.pos == h.pos && |h.items| < c.maxItems && WeightOf(h.items) + spawn.treasure.weight <= c.maxWeight
    ensures Status(c, w, p) == Collected
  {
    AnswerIsExact(c, w, p);
    assert DistanceSq(w.s.players[p.player].pos, w.s.players[p.player].pos) == 0.0;
    assert Square(c.radius) >= 0.0;
  }

  lemma SquareGrows(d: real, r: real)
    requires r >= 0.0 && !(-r - 0.001 <= d <= r + 0.001)
    ensures Square(d) > Square(r) + REACH_EPSILON
  {
    var e, k := if d < 0.0 then -d else d, r + 0.001;
    assert Square(d) == Square(e);
    assert Square(k) == Square(r) + 0.002 * r + REACH_EPSILON;
    LongerIsLonger(e, k);
  }

  /** Farther than the radius along either axis, by more than a thousandth, nothing is granted. */
  lemma FarIsFar(c: Config, a: (real, real), b: (real, real))
    requires c.radius >= 0.0 && DistanceSq(a, b) <= Square(c.radius) + REACH_EPSILON
    ensures -c.radius - 0.001 <= a.0 - b.0 <= c.radius + 0.001 && -c.radius - 0.001 <= a.1 - b.1 <= c.radius + 0.001
  {
    assert Square(a.0 - b.0) >= 0.0 && Square(a.1 - b.1) >= 0.0;
    hide Square;
    if !(-c.radius - 0.001 <= a.0 - b.0 <= c.radius + 0.001) { SquareGrows(a.0 - b.0, c.radius); }
    if !(-c.radius - 0.001 <= a.1 - b.1 <= c.radius + 0.001) { SquareGrows(a.1 - b.1, c.radius); }
  }

  /** A granted pickup is of a spawn that lay there, within reach of where its player stands. */
  predicate GrantIsNear(c: Config, active: Spawns, players: Holders, r: Resolution) {
    r.status == Collected ==>
      && r.pickup.spawn in active && r.pickup.player in players
      && DistanceSq(active[r.pickup.spawn].pos, players[r.pickup.player].pos) <= Square(c.radius) + REACH_EPSILON
  }

  ghost predicate SamePlaces(a: Holders, b: Holders) {
    a.Keys == b.Keys && forall p :: p in a ==> a[p].pos == b[p].pos
  }

  lemma {:induction false} GrantsAreNear(c: Config, w: Work, pickups: seq<Pickup>)
    requires w.results == []
    ensures var v := ResolveAll(c, w, pickups);
            && SamePlaces(w.s.players, v.s.players)
            && (forall id :: id in v.s.active ==> id in w.s.active && v.s.active[id] == w.s.active[id])
            && forall r :: r in v.results ==> GrantIsNear(c, w.s.active, w.s.players, r)
  {
    if pickups != [] {
      GrantsAreNear(c, w, pickups[..|pickups| - 1]);
      OneGrantIsNear(c, w, ResolveAll(c, w, pickups[..|pickups| - 1]), pickups[|pickups| - 1]);
    }
  }

  lemma OneGrantIsNear(c: Config, w: Work, u: Work, p: Pickup)
    requires SamePlaces(w.s.players, u.s.players)
    requires forall id :: id in u.s.active ==> id in w.s.active && u.s.active[id] == w.s.active[id]
    requires forall r :: r in u.results ==> GrantIsNear(c, w.s.active, w.s.players, r)
    ensures var v := Resolve(c, u, p);
            && SamePlaces(w.s.players, v.s.players)
            && (forall id :: id in v.s.active ==> id in w.s.active && v.s.active[id] == w.s.active[id])
            && forall r :: r in v.results ==> GrantIsNear(c, w.s.active, w.s.players, r)
  {
    var v := Resolve(c, u, p);
    var r := v.results[|u.results|];
    assert v.results == u.results + [r];
    if r.status == Collected {
      assert u.s.active[p.spawn].pos == w.s.active[p.spawn].pos && u.s.players[p.player].pos == w.s.players[p.player].pos;
      assert DistanceSq(u.s.active[p.spawn].pos, u.s.players[p.player].pos) <= Square(c.radius) + REACH_EPSILON;
    }
    assert GrantIsNear(c, w.s.active, w.s.players, r);
    hide GrantIsNear, InReach;
  }

  /** So it is for every answer of a tick, with spawns and players as they stand when pickups are served. */
  lemma TickGrantsAreNear(c: Config, defs: seq<Treasure>, s: State, i: Input)
    ensures var (t, report) := Tick(c, defs, s, i);
            && SamePlaces(Stocked(c, defs, s, i).s.players, t.players)
            && forall r :: r in report.results ==> GrantIsNear(c, Stocked(c, defs, s, i).s.active, t.players, r)
  {
    var w := Stocked(c, defs, s, i);
    StockedAnswersNothing(c, defs, s, i);
    GrantsAreNear(c, Drain(w), Drained(w.s.queues));
    hide Stocked, ResolveAll;
    forall r | r in Tick(c, defs, s, i).1.results ensures GrantIsNear(c, w.s.active, Tick(c, defs, s, i).0.players, r) {
      assert GrantIsNear(c, w.s.active, w.s.players, r);
    }
  }

  lemma StockedAnswersNothing(c: Config, defs: seq<Treasure>, s: State, i: Input)
    ensures Stocked(c, defs, s, i).results == []
  {
    var w := Schedule(c, defs, Begin(s, i), i.tick);
    DropsAnswerNothing(c, w, i.tick, InOrder(Combat.Victims(i.deaths)));
  }

  lemma {:induction false} DropsAnswerNothing(c: Config, w: Work, tick: nat, victims: seq<nat>)
    ensures DropAll(c, w, tick, victims).results == w.results
  {
    if victims != [] {
      var before, victim := DropAll(c, w, tick, victims[..|victims| - 1]), victims[|victims| - 1];
      DropsAnswerNothing(c, w, tick, victims[..|victims| - 1]);
      if victim in before.s.players { DropKeepsPlayers(c, before, tick, before.s.players[victim].items, before.s.players[victim].pos); }
    }
  }

  // ---------------------------------------------------------------------------------------------
  // Where drops lie
  // ---------------------------------------------------------------------------------------------

  predicate OnAxis(value: real, size: int) { 0.0 <= value <= size as real - 0.001 }

  predicate OnMap(c: Config, pos: (real, real)) { OnAxis(pos.0, c.sizeX) && OnAxis(pos.1, c.sizeY) }

  lemma ClampedStaysNear(value: real, shift: real, spread: real, size: int)
    requires size > 0 && spread >= 0.0 && OnAxis(value, size) && (shift == -spread || shift == 0.0 || shift == spread)
    ensures var at := ClampPosition(value + shift, size);
            OnAxis(at, size) && Square(at - value) <= Square(spread)
  {
    var d := ClampPosition(value + shift, size) - value;
    assert -spread <= d <= spread;
    assert (spread - d) * (spread + d) >= 0.0;
  }

  lemma ShiftIsOneOfThree(index: nat, spread: real)
    ensures var dx := (index % 3 - 1) as real * spread; dx == -spread || dx == 0.0 || dx == spread
    ensures var dy := (index / 3 % 3 - 1) as real * spread; dy == -spread || dy == 0.0 || dy == spread
  {
  }

  /** Round a place on the map drops lie on the map, and, if the spread is small enough, within reach of that place. */
  lemma DropLiesInReach(c: Config, origin: (real, real), index: nat)
    requires Sensible(c) && OnMap(c, origin) && 2.0 * Square(c.spread) <= Square(c.radius)
    ensures OnMap(c, DropPosition(c, origin, index))
    ensures DistanceSq(DropPosition(c, origin, index), origin) <= Square(c.radius) + REACH_EPSILON
  {
    hide Square, ClampPosition, OnAxis;
    ShiftIsOneOfThree(index, c.spread);
    ClampedStaysNear(origin.0, (index % 3 - 1) as real * c.spread, c.spread, c.sizeX);
    ClampedStaysNear(origin.1, (index / 3 % 3 - 1) as real * c.spread, c.spread, c.sizeY);
  }

  lemma {:induction false} DropItemsLieInReach(c: Config, w: Work, tick: nat, items: seq<Item>, origin: (real, real))
    requires Sensible(c) && OnMap(c, origin) && 2.0 * Square(c.spread) <= Square(c.radius)
    ensures var v := DropItems(c, w, tick, items, origin);
            forall id :: id in v.s.active && (id !in w.s.active || v.s.active[id] != w.s.active[id]) ==>
              DistanceSq(v.s.active[id].pos, origin) <= Square(c.radius) + REACH_EPSILON
  {
    if items != [] {
      hide Square, DistanceSq, DropPosition, OnMap;
      DropItemsLieInReach(c, w, tick, items[..|items| - 1], origin);
      DropLiesInReach(c, origin, |items| - 1);
    }
  }

  /** Whoever dies on the map drops everything within reach of the place where it died. */
  lemma DeathDropLiesInReach(c: Config, w: Work, tick: nat, victim: nat)
    requires Sensible(c) && 2.0 * Square(c.spread) <= Square(c.radius)
    requires victim in w.s.players && OnMap(c, w.s.players[victim].pos)
    ensures var v := DropOf(c, w, tick, victim);
            forall id :: id in v.s.active && (id !in w.s.active || v.s.active[id] != w.s.active[id]) ==>
              DistanceSq(v.s.active[id].pos, w.s.players[victim].pos) <= Square(c.radius) + REACH_EPSILON
  {
    var h := w.s.players[victim];
    DropItemsLieInReach(c, w, tick, h.items, h.pos);
    DropKeepsPlayers(c, w, tick, h.items, h.pos);
    hide Square, DistanceSq, DropItems;
  }

  /** Scheduled treasures lie on the map. */
  lemma ScheduledLiesOnMap(c: Config, id: nat)
    requires c.sizeX > 0 && c.sizeY > 0
    ensures OnMap(c, ScheduledPosition(c, id))
  {
  }

  // ---------------------------------------------------------------------------------------------
  // The schedule
  // ---------------------------------------------------------------------------------------------

  /** The treasures among new spawns that were laid out by the schedule. */
  function ScheduledAmong(spawned: seq<Spawn>): seq<Treasure> {
    if spawned == [] then []
    else
      var last := spawned[|spawned| - 1];
      ScheduledAmong(spawned[..|spawned| - 1]) + if last.source == Scheduled then [last.treasure] else []
  }

  lemma {:induction false} DropItemsScheduleNothing(c: Config, w: Work, tick: nat, items: seq<Item>, origin: (real, real))
    ensures ScheduledAmong(DropItems(c, w, tick, items, origin).spawned) == ScheduledAmong(w.spawned)
    ensures DropItems(c, w, tick, items, origin).s.nextDefinition == w.s.nextDefinition
  {
    if items != [] {
      var before := DropItems(c, w, tick, items[..|items| - 1], origin);
      DropItemsScheduleNothing(c, w, tick, items[..|items| - 1], origin);
      var after := DropItems(c, w, tick, items, origin);
      assert after.spawned[..|after.spawned| - 1] == before.spawned;
    }
  }

  lemma {:induction false} DropsScheduleNothing(c: Config, w: Work, tick: nat, victims: seq<nat>)
    ensures var v := DropAll(c, w, tick, victims);
            ScheduledAmong(v.spawned) == ScheduledAmong(w.spawned) && v.s.nextDefinition == w.s.nextDefinition
  {
    if victims != [] {
      var before, victim := DropAll(c, w, tick, victims[..|victims| - 1]), victims[|victims| - 1];
      DropsScheduleNothing(c, w, tick, victims[..|victims| - 1]);
      if victim in before.s.players {
        DropItemsScheduleNothing(c, before, tick, before.s.players[victim].items, before.s.players[victim].pos);
        hide DropItems, ScheduledAmong;
      }
    }
  }

  lemma {:induction false} PickupsScheduleNothing(c: Config, w: Work, pickups: seq<Pickup>)
    ensures var v := ResolveAll(c, w, pickups); v.spawned == w.spawned && v.s.nextDefinition == w.s.nextDefinition
  {
    if pickups != [] { PickupsScheduleNothing(c, w, pickups[..|pickups| - 1]); }
  }

  /** What a tick is to lay out: the next treasure of the catalogue, in every interval-th tick with room on the ground. */
  function Due(h: Shop, s: State, tick: nat): seq<Treasure>
    requires h.config.spawnInterval > 0
  {
    if h.defs != [] && tick % h.config.spawnInterval == 0 && |s.active| < h.config.maxActive
    then [h.defs[s.nextDefinition % |h.defs|]] else []
  }

  lemma ScheduleLaysOutWhatIsDue(h: Shop, s: State, i: Input)
    requires h.config.spawnInterval > 0
    ensures var w := Schedule(h.config, h.defs, Begin(s, i), i.tick);
            ScheduledAmong(w.spawned) == Due(h, s, i.tick) && w.s.nextDefinition == s.nextDefinition + |Due(h, s, i.tick)|
  {
    var w := Schedule(h.config, h.defs, Begin(s, i), i.tick);
    assert w.spawned == [] || w.spawned[..0] == [];
    hide SeeMoves, SeeCombat, ScheduledPosition;
  }

  lemma TickLaysOutWhatIsDue(h: Shop, s: State, i: Input)
    requires h.config.spawnInterval > 0
    ensures var (t, report) := Tick(h.config, h.defs, s, i);
            ScheduledAmong(report.spawned) == Due(h, s, i.tick) && t.nextDefinition == s.nextDefinition + |Due(h, s, i.tick)|
  {
    hide Schedule, Begin, DropAll, ResolveAll, ScheduledAmong, Due;
    var w := Schedule(h.config, h.defs, Begin(s, i), i.tick);
    ScheduleLaysOutWhatIsDue(h, s, i);
    DropsScheduleNothing(h.config, w, i.tick, InOrder(Combat.Victims(i.deaths)));
    var v := Stocked(h.config, h.defs, s, i);
    PickupsScheduleNothing(h.config, Drain(v), Drained(v.s.queues));
  }

  /** Everything the schedule lays out in a run, in order. */
  ghost function LaidOut(h: Shop, s: State, events: seq<Event>): seq<Treasure>
    decreases events
  {
    if events == [] then []
    else ScheduledAmong(Step(h, s, events[0]).1.spawned) + LaidOut(h, Step(h, s, events[0]).0, events[1..])
  }

  lemma StepLaysOut(h: Shop, s: State, e: Event)
    requires h.config.spawnInterval > 0 && !e.Reset?
    ensures var (t, report) := Step(h, s, e);
            && ScheduledAmong(report.spawned) == (if e.TickEvent? then Due(h, s, e.input.tick) else [])
            && t.nextDefinition == s.nextDefinition + |ScheduledAmong(report.spawned)|
  {
    if e.TickEvent? {
      TickLaysOutWhatIsDue(h, s, e.input);
      hide Tick, ScheduledAmong;
    }
  }

  /** The n-th treasure laid out since the catalogue was opened is entry n of it, counted round and round. */
  lemma {:induction false} CatalogueGoesRound(h: Shop, s: State, events: seq<Event>, n: nat)
    requires h.config.spawnInterval > 0 && (forall e :: e in events ==> !e.Reset?) && n < |LaidOut(h, s, events)|
    ensures h.defs != [] && LaidOut(h, s, events)[n] == h.defs[(s.nextDefinition + n) % |h.defs|]
    decreases events
  {
    hide Step, ScheduledAmong;
    var (t, report) := Step(h, s, events[0]);
    var first := ScheduledAmong(report.spawned);
    assert events[0] in events && forall e :: e in events[1..] ==> e in events;
    StepLaysOut(h, s, events[0]);
    if n >= |first| { CatalogueGoesRound(h, t, events[1..], n - |first|); }
  }
}
