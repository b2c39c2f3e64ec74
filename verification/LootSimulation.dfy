/** The loot simulation as an object: inventories, queues, spawns and counters updated in place. */
module LootSim {
  import opened Prelude
  import opened Sorting
  import opened Ids
  import opened Queues
  import Combat
  import opened Loot

  /** The definitions that are kept, in order. */
  function Kept(defs: seq<Treasure>): seq<Treasure> {
    if defs == [] then [] else Kept(defs[..|defs| - 1]) + if Sound(defs[|defs| - 1]) then [defs[|defs| - 1]] else []
  }

  class InventoryLootSimulation {
    const config: Config
    const definitions: seq<Treasure>
    var players: Holders
    var pickupQueues: Queues<Pickup>
    var activeSpawns: Spawns
    var consumedIds: set<nat>
    var nextSpawnId: nat
    var nextDefinition: nat
    var queuedCount: nat

    ghost function Holding(): State
      reads this
    {
      State(players, pickupQueues, activeSpawns, consumedIds, nextSpawnId, nextDefinition, queuedCount)
    }

    ghost function TheShop(): Shop { Shop(config, definitions) }

    constructor (defs: seq<Treasure>, config: Config)
      ensures this.config == SanitizeConfig(config) && definitions == Kept(defs) && Catalogue(definitions)
      ensures forall d :: d in definitions <==> d in defs && Sound(d)
      ensures Holding() == EMPTY
    {
      var sane := SanitizeConfig(config);
      var kept: seq<Treasure> := [];
      for i := 0 to |defs|
        invariant kept == Kept(defs[..i])
        invariant forall d :: d in kept <==> d in defs[..i] && Sound(d)
      {
        assert defs[..i + 1][..i] == defs[..i];
        if !(defs[i].id == "" || defs[i].value < 0 || defs[i].weight < 0) {
          kept := kept + [defs[i]];
        }
      }
      assert defs[..|defs|] == defs;
      this.config, definitions := sane, kept;
      players, pickupQueues, activeSpawns, consumedIds := map[], map[], map[], {};
      nextSpawnId, nextDefinition, queuedCount := 1, 0, 0;
    }

    method Reset()
      modifies this
      ensures Holding() == Step(TheShop(), old(Holding()), Event.Reset).0
    {
      pickupQueues, activeSpawns, consumedIds := map[], map[], {};
      nextSpawnId, nextDefinition, queuedCount := 1, 0, 0;
      ghost var before := players;
      var todo := players.Keys;
      while todo != {}
        modifies this`players
        invariant todo <= players.Keys && players.Keys == before.Keys
        invariant forall id :: id in before ==> players[id] == if id in todo then before[id] else Emptied(before[id])
        decreases todo
      {
        var id :| id in todo;
        players := players[id := players[id].(totalValue := 0, totalWeight := 0, lastPickup := 0, lastEnqueued := 0, items := [])];
        todo := todo - {id};
      }
      assert players == Wiped(old(Holding())).players;
    }

    method EnsurePlayer(id: nat)
      modifies this`players
      ensures players == Ensure(old(players), id)
      ensures Holding() == Step(TheShop(), old(Holding()), Join(id)).0
    {
      if id !in players {
        players := players[id := NEWCOMER];
      }
    }

    method RemovePlayer(id: nat)
      modifies this
      ensures Holding() == Step(TheShop(), old(Holding()), Leave(id)).0
    {
      if id in pickupQueues {
        queuedCount := if queuedCount >= |pickupQueues[id]| then queuedCount - |pickupQueues[id]| else 0;
        pickupQueues := pickupQueues - {id};
      }
      if id in players {
        players := players[id := players[id].(alive := false, pos := (0.0, 0.0))];
      }
    }

    method EnqueuePickup(p: Pickup) returns (status: EnqueueStatus)
      modifies this
      ensures status == Verdict(config, old(Holding()), p)
      ensures Holding() == Step(TheShop(), old(Holding()), Ask(p)).0
    {
      EnsurePlayer(p.player);
      var state := players[p.player];
      if p.number <= state.lastEnqueued {
        return OutOfOrder;
      }
      if queuedCount >= config.capacity {
        return QueueFull;
      }
      var queue := QueueOf(pickupQueues, p.player);
      if queue != [] && p.number <= queue[|queue| - 1].number {
        return OutOfOrder;
      }
      pickupQueues := pickupQueues[p.player := queue + [p]];
      players := players[p.player := state.(lastEnqueued := p.number)];
      queuedCount := queuedCount + 1;
      return Accepted;
    }

    method NoteMoves(moves: seq<(nat, (real, real))>)
      modifies this`players
      ensures players == SeeMoves(old(players), moves)
    {
      for i := 0 to |moves|
        invariant players == SeeMoves(old(players), moves[..i])
      {
        assert moves[..i + 1][..i] == moves[..i];
        EnsurePlayer(moves[i].0);
        players := players[moves[i].0 := players[moves[i].0].(pos := moves[i].1)];
      }
      assert moves[..|moves|] == moves;
    }

    method NoteCombat(news: seq<(nat, bool)>)
      modifies this`players
      ensures players == SeeCombat(old(players), news)
    {
      for i := 0 to |news|
        invariant players == SeeCombat(old(players), news[..i])
      {
        assert news[..i + 1][..i] == news[..i];
        EnsurePlayer(news[i].0);
        players := players[news[i].0 := players[news[i].0].(alive := news[i].1)];
      }
      assert news[..|news|] == news;
    }

    /** The tick under way, given what it has reported so far. */
    ghost function Under(spawned: seq<Spawn>, results: seq<Resolution>, changed: set<nat>): Work
      reads this
    {
      Work(Holding(), spawned, results, changed)
    }

    method Create(treasure: Treasure, pos: (real, real), source: Source, tick: nat, spawned: seq<Spawn>) returns (more: seq<Spawn>)
      modifies this`activeSpawns, this`nextSpawnId
      ensures forall results, changed ::
                Under(more, results, changed) == Put(old(Under(spawned, results, changed)), Spawn(old(nextSpawnId), treasure, pos, source, tick))
    {
      var spawn := Spawn(nextSpawnId, treasure, pos, source, tick);
      nextSpawnId := nextSpawnId + 1;
      activeSpawns := activeSpawns[spawn.id := spawn];
      more := spawned + [spawn];
    }

    method SpawnOnSchedule(tick: nat) returns (spawned: seq<Spawn>)
      modifies this
      ensures Under(spawned, [], {}) == Schedule(config, definitions, old(Under([], [], {})), tick)
    {
      spawned := [];
      if definitions != [] && config.spawnInterval > 0 && tick % config.spawnInterval == 0 && |activeSpawns| < config.maxActive {
        var treasure := definitions[nextDefinition % |definitions|];
        nextDefinition := nextDefinition + 1;
        spawned := Create(treasure, ScheduledPosition(config, nextSpawnId), Scheduled, tick, spawned);
      }
    }

    method DropInventory(tick: nat, items: seq<Item>, origin: (real, real), start: seq<Spawn>, ghost changed: set<nat>) returns (spawned: seq<Spawn>)
      modifies this`activeSpawns, this`nextSpawnId
      ensures Under(spawned, [], changed) == DropItems(config, old(Under(start, [], changed)), tick, items, origin)
    {
      spawned := start;
      for i := 0 to |items|
        invariant Under(spawned, [], changed) == DropItems(config, old(Under(start, [], changed)), tick, items[..i], origin)
      {
        assert items[..i + 1][..i] == items[..i];
        spawned := Create(items[i].treasure, DropPosition(config, origin, i), DeathDrop, tick, spawned);
      }
      assert items[..|items|] == items;
    }

    method DropOne(tick: nat, victim: nat, start: seq<Spawn>, had: set<nat>) returns (spawned: seq<Spawn>, changed: set<nat>)
      modifies this`activeSpawns, this`nextSpawnId, this`players
      ensures Under(spawned, [], changed) == DropOf(config, old(Under(start, [], had)), tick, victim)
    {
      spawned, changed := start, had;
      if victim !in players || players[victim].items == [] {
        return;
      }
      var h := players[victim];
      spawned := DropInventory(tick, h.items, h.pos, start, had);
      players := players[victim := h.(items := [], totalValue := 0, totalWeight := 0)];
      changed := had + {victim};
    }

    /** Victims never decrease along the list. */
    method IsSortedByVictim(deaths: seq<Combat.Death>) returns (sorted: bool)
      ensures sorted <==> forall i, j :: 0 <= i < j < |deaths| ==> deaths[i].victim <= deaths[j].victim
    {
      var i := 1;
      while i < |deaths|
        invariant i >= 1
        invariant forall j, k :: 0 <= j < k < i && k < |deaths| ==> deaths[j].victim <= deaths[k].victim
      {
        if deaths[i - 1].victim > deaths[i].victim {
          return false;
        }
        i := i + 1;
      }
      return true;
    }

    method DropInOrder(tick: nat, deaths: seq<Combat.Death>, start: seq<Spawn>) returns (spawned: seq<Spawn>, changed: set<nat>)
      requires forall i, j :: 0 <= i < j < |deaths| ==> deaths[i].victim <= deaths[j].victim
      modifies this`activeSpawns, this`nextSpawnId, this`players
      ensures Under(spawned, [], changed) == DropFor(config, old(Under(start, [], {})), tick, deaths)
    {
      spawned, changed := start, {};
      for i := 0 to |deaths|
        invariant Under(spawned, [], changed) == DropFor(config, old(Under(start, [], {})), tick, deaths[..i])
      {
        NextDrop(config, old(Under(start, [], {})), tick, deaths, i);
        spawned, changed := DropOne(tick, deaths[i].victim, spawned, changed);
      }
      assert deaths[..|deaths|] == deaths;
    }

    /** Death drops; the list is sorted first unless its victims already ascend. */
    method DropForDeaths(tick: nat, deaths: seq<Combat.Death>, start: seq<Spawn>) returns (spawned: seq<Spawn>, changed: set<nat>)
      modifies this`activeSpawns, this`nextSpawnId, this`players
      ensures Under(spawned, [], changed) == DropFor(config, old(Under(start, [], {})), tick, deaths)
    {
      var sorted := deaths;
      var already := IsSortedByVictim(deaths);
      if !already {
        sorted := StdSort(Combat.DeathLess, deaths);
        MultisetMembers(deaths, sorted);
        assert forall i, j :: 0 <= i < j < |sorted| ==> !Combat.DeathLess(sorted[j], sorted[i]);
      }
      assert Combat.Victims(sorted) == Combat.Victims(deaths);
      spawned, changed := DropInOrder(tick, sorted, start);
    }

    method Serve(p: Pickup, ghost spawned: seq<Spawn>, sofar: seq<Resolution>, had: set<nat>) returns (results: seq<Resolution>, changed: set<nat>)
      modifies this`players, this`activeSpawns, this`consumedIds
      ensures Under(spawned, results, changed) == Resolve(config, old(Under(spawned, sofar, had)), p)
    {
      changed := had;
      if p.player !in players {
        results := sofar + [Resolution(p, PlayerMissing, "", 0, 0, 0)];
        return;
      }
      players := players[p.player := Noted(players[p.player], p)];
      var h := players[p.player];
      if !h.alive {
        results := sofar + [Answer(p, PlayerDead, "", h)];
        return;
      }
      if p.spawn in consumedIds {
        results := sofar + [Answer(p, DuplicatePickup, "", h)];
        return;
      }
      if p.spawn !in activeSpawns {
        results := sofar + [Answer(p, UnknownSpawn, "", h)];
        return;
      }
      var spawn := activeSpawns[p.spawn];
      if !InReach(config, spawn.pos, h.pos) {
        results := sofar + [Answer(p, OutOfRange, "", h)];
        return;
      }
      if |h.items| + 1 > config.maxItems {
        results := sofar + [Answer(p, InventoryCapacityExceeded, "", h)];
        return;
      }
      if h.totalWeight + spawn.treasure.weight > config.maxWeight {
        results := sofar + [Answer(p, WeightLimitExceeded, "", h)];
        return;
      }
      h := Take(h, spawn);
      players := players[p.player := h];
      consumedIds := consumedIds + {p.spawn};
      activeSpawns := activeSpawns - {p.spawn};
      results := sofar + [Answer(p, Collected, spawn.treasure.id, h)];
      changed := had + {p.player};
    }

    method ServeAll(pickups: seq<Pickup>, ghost spawned: seq<Spawn>, had: set<nat>) returns (results: seq<Resolution>, changed: set<nat>)
      modifies this`players, this`activeSpawns, this`consumedIds
      ensures Under(spawned, results, changed) == ResolveAll(config, old(Under(spawned, [], had)), pickups)
    {
      results, changed := [], had;
      for i := 0 to |pickups|
        invariant Under(spawned, results, changed) == ResolveAll(config, old(Under(spawned, [], had)), pickups[..i])
      {
        assert pickups[..i + 1][..i] == pickups[..i];
        results, changed := Serve(pickups[i], spawned, results, changed);
      }
      assert pickups[..|pickups|] == pickups;
    }

    method DrainPickups(ghost spawned: seq<Spawn>, ghost changed: set<nat>) returns (pickups: seq<Pickup>)
      modifies this`pickupQueues, this`queuedCount
      ensures pickups == Drained(old(pickupQueues))
      ensures Under(spawned, [], changed) == Drain(old(Under(spawned, [], changed)))
    {
      pickups := DrainDeterministic(pickupQueues);
      pickupQueues := map[];
      for i := 0 to |pickups|
        modifies this`queuedCount
        invariant queuedCount == Max(0, old(queuedCount) - i)
      {
        if queuedCount > 0 {
          queuedCount := queuedCount - 1;
        }
      }
    }

    method Summarize(changed: set<nat>) returns (deltas: seq<Summary>)
      ensures deltas == Summaries(players, InOrder(changed))
    {
      var ids := SortIds(changed);
      deltas := [];
      for i := 0 to |ids|
        invariant deltas == Summaries(players, ids[..i])
      {
        deltas := deltas + [SummaryOf(players, ids[i])];
      }
      assert ids[..|ids|] == ids;
    }

    method Restock(input: Input) returns (spawned: seq<Spawn>, changed: set<nat>)
      modifies this
      ensures Under(spawned, [], changed) == Stocked(config, definitions, old(Holding()), input)
    {
      NoteMoves(input.moves);
      NoteCombat(input.combat);
      spawned := SpawnOnSchedule(input.tick);
      changed := {};
      if config.mode == All && input.deaths != [] {
        spawned, changed := DropForDeaths(input.tick, input.deaths, spawned);
      } else if input.deaths == [] {
        assert Combat.Victims(input.deaths) == {};
      }
    }

    method ResolveTick(input: Input) returns (report: Report)
      modifies this
      ensures Holding() == Step(TheShop(), old(Holding()), TickEvent(input)).0
      ensures report == Step(TheShop(), old(Holding()), TickEvent(input)).1
    {
      var spawned, changed := Restock(input);
      var pickups := DrainPickups(spawned, changed);
      var results;
      results, changed := ServeAll(pickups, spawned, changed);
      var deltas := Summarize(changed);
      report := Report(spawned, results, deltas);
    }
  }

  /** The drops of the listed deaths, by ascending victim. */
  ghost function DropFor(c: Config, w: Work, tick: nat, deaths: seq<Combat.Death>): Work {
    DropAll(c, w, tick, InOrder(Combat.Victims(deaths)))
  }

  /** Whoever has dropped everything has nothing left to drop. */
  lemma SecondDropIsIdle(c: Config, w: Work, tick: nat, v: nat)
    ensures DropOf(c, DropOf(c, w, tick, v), tick, v) == DropOf(c, w, tick, v)
  {
  }

  lemma ExtendDrops(c: Config, w: Work, tick: nat, ids: seq<nat>, v: nat)
    ensures DropAll(c, w, tick, ids + [v]) == DropOf(c, DropAll(c, w, tick, ids), tick, v)
  {
    assert (ids + [v])[..|ids|] == ids;
  }

  lemma OneMoreDrop(c: Config, w: Work, tick: nat, done: set<nat>, v: nat)
    requires forall u :: u in done ==> u <= v
    ensures DropAll(c, w, tick, InOrder(done + {v})) == DropOf(c, DropAll(c, w, tick, InOrder(done)), tick, v)
  {
    hide DropAll, DropOf;
    var ids := InOrder(done);
    if v in done {
      assert done + {v} == done;
      GreatestIsLast(ids, v);
      ExtendDrops(c, w, tick, ids[..|ids| - 1], v);
      SecondDropIsIdle(c, DropAll(c, w, tick, ids[..|ids| - 1]), tick, v);
    } else {
      AppendGreatest(ids, InOrder(done + {v}), v);
      ExtendDrops(c, w, tick, ids, v);
    }
  }

  lemma NextDrop(c: Config, w: Work, tick: nat, deaths: seq<Combat.Death>, i: nat)
    requires i < |deaths| && forall i, j :: 0 <= i < j < |deaths| ==> deaths[i].victim <= deaths[j].victim
    ensures DropFor(c, w, tick, deaths[..i + 1]) == DropOf(c, DropFor(c, w, tick, deaths[..i]), tick, deaths[i].victim)
  {
    hide DropAll, DropOf, InOrder;
    assert deaths[..i + 1] == deaths[..i] + [deaths[i]];
    assert Combat.Victims(deaths[..i + 1]) == Combat.Victims(deaths[..i]) + {deaths[i].victim};
    OneMoreDrop(c, w, tick, Combat.Victims(deaths[..i]), deaths[i].victim);
  }
}
