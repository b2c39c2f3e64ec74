/** server/src/InventoryLootSimulation.cpp as a value: scheduled spawns, death drops, pickups with limits. */
module Loot {
  import opened Prelude
  import opened Ids
  import opened Queues
  import Combat
  import Movement

  datatype Treasure = Treasure(id: string, value: int, weight: int)

  datatype Source = Scheduled | DeathDrop

  datatype Spawn = Spawn(id: nat, treasure: Treasure, pos: (real, real), source: Source, tick: nat)

  datatype Item = Item(source: nat, treasure: Treasure)

  datatype Holder = Holder(pos: (real, real), alive: bool, totalValue: int, totalWeight: int, lastPickup: nat,
                           lastEnqueued: nat, items: seq<Item>)

  datatype Pickup = Pickup(player: nat, number: nat, spawn: nat)

  datatype DropMode = Nothing | All

  datatype Config = Config(spawnInterval: nat, maxActive: nat, capacity: nat, radius: real, maxItems: nat, maxWeight: int,
                           mode: DropMode, sizeX: int, sizeY: int, spread: real)

  datatype EnqueueStatus = Accepted | OutOfOrder | QueueFull

  datatype Status = Collected | PlayerMissing | PlayerDead | UnknownSpawn | DuplicatePickup | OutOfRange
                  | InventoryCapacityExceeded | WeightLimitExceeded

  datatype Resolution = Resolution(pickup: Pickup, status: Status, treasureId: string, totalValue: int, totalWeight: int, itemCount: nat)

  datatype Summary = Summary(player: nat, totalValue: int, totalWeight: int, itemCount: nat, lastPickup: nat)

  type Holders = map<nat, Holder>

  type Spawns = map<nat, Spawn>

  datatype State = State(players: Holders, queues: Queues<Pickup>, active: Spawns, consumed: set<nat>, nextId: nat,
                         nextDefinition: nat, queued: nat)

  const EMPTY := State(map[], map[], map[], {}, 1, 0, 0)

  datatype Input = Input(tick: nat, moves: seq<(nat, (real, real))>, combat: seq<(nat, bool)>, deaths: seq<Combat.Death>)

  datatype Report = Report(spawned: seq<Spawn>, results: seq<Resolution>, deltas: seq<Summary>)

  predicate Sensible(c: Config) {
    && c.spawnInterval > 0 && c.maxActive > 0 && c.capacity > 0 && c.radius > 0.0 && c.maxItems > 0 && c.maxWeight > 0
    && c.sizeX > 0 && c.sizeY > 0 && c.spread >= 0.0
  }

  function NatOr(v: nat, default: nat): nat { if v == 0 then default else v }

  function IntOr(v: int, default: int): int { if v <= 0 then default else v }

  function SanitizeConfig(c: Config): (r: Config)
    ensures Sensible(r)
  {
    var d := DEFAULTS;
    Config(NatOr(c.spawnInterval, d.spawnInterval), NatOr(c.maxActive, d.maxActive), NatOr(c.capacity, d.capacity),
           Movement.Positive(c.radius, d.radius), NatOr(c.maxItems, d.maxItems), IntOr(c.maxWeight, d.maxWeight), c.mode,
           IntOr(c.sizeX, d.sizeX), IntOr(c.sizeY, d.sizeY), if c.spread < 0.0 then d.spread else c.spread)
  }

  const DEFAULTS := Config(90, 64, 2048, 2.5, 16, 40, All, 2048, 2048, 0.75)

  /** Each sound field is kept and each unsound one takes its default; so nothing else changes and once is enough. */
  lemma SanitizeReplacesExactlyTheUnsound(c: Config)
    ensures Sensible(SanitizeConfig(c)) && (SanitizeConfig(c) == c <==> Sensible(c))
    ensures SanitizeConfig(SanitizeConfig(c)) == SanitizeConfig(c)
    ensures var r, d := SanitizeConfig(c), DEFAULTS;
            && r.spawnInterval == (if c.spawnInterval > 0 then c else d).spawnInterval
            && r.maxActive == (if c.maxActive > 0 then c else d).maxActive
            && r.capacity == (if c.capacity > 0 then c else d).capacity
            && r.radius == (if c.radius > 0.0 then c else d).radius
            && r.maxItems == (if c.maxItems > 0 then c else d).maxItems
            && r.maxWeight == (if c.maxWeight > 0 then c else d).maxWeight
            && r.sizeX == (if c.sizeX > 0 then c else d).sizeX
            && r.sizeY == (if c.sizeY > 0 then c else d).sizeY
            && r.spread == (if c.spread >= 0.0 then c else d).spread
            && r.mode == c.mode
  {
  }

  predicate Sound(d: Treasure) { d.id != "" && d.value >= 0 && d.weight >= 0 }

  ghost predicate Catalogue(defs: seq<Treasure>) { forall d :: d in defs ==> Sound(d) }

  // ---------------------------------------------------------------------------------------------
  // Where spawns lie
  // ---------------------------------------------------------------------------------------------

  function ClampPosition(value: real, bound: int): real {
    var limit := Max(1, bound) as real - 0.001;
    if value < 0.0 then 0.0 else if limit < value then limit else value
  }

  /** The scattered positions of scheduled spawns. */
  function ScheduledPosition(c: Config, id: nat): (real, real) {
    var x := ((id * 37 + 17) % Max(1, c.sizeX)) as real + 0.5;
    var y := ((id * 53 + 29) % Max(1, c.sizeY)) as real + 0.5;
    (ClampPosition(x, c.sizeX), ClampPosition(y, c.sizeY))
  }

  /** Dropped items lie on a three by three pattern round the victim. */
  function DropPosition(c: Config, origin: (real, real), index: nat): (real, real) {
    var dx := (index % 3 - 1) as real * c.spread;
    var dy := (index / 3 % 3 - 1) as real * c.spread;
    (ClampPosition(origin.0 + dx, c.sizeX), ClampPosition(origin.1 + dy, c.sizeY))
  }

  predicate InReach(c: Config, a: (real, real), b: (real, real)) {
    var dx, dy := a.0 - b.0, a.1 - b.1;
    dx * dx + dy * dy <= c.radius * c.radius + 0.000001
  }

  // ---------------------------------------------------------------------------------------------
  // Players and their queues
  // ---------------------------------------------------------------------------------------------

  const NEWCOMER := Holder((0.0, 0.0), true, 0, 0, 0, 0, [])

  function Ensure(players: Holders, id: nat): Holders { players[id := Get(players, id, NEWCOMER)] }

  function Remove(s: State, id: nat): State {
    var waiting := |QueueOf(s.queues, id)|;
    s.(queues := s.queues - {id}, queued := Max(0, s.queued - waiting),
       players := if id in s.players then s.players[id := s.players[id].(alive := false, pos := (0.0, 0.0))] else s.players)
  }

  function Verdict(c: Config, s: State, p: Pickup): EnqueueStatus {
    var queue := QueueOf(s.queues, p.player);
    if p.number <= Get(s.players, p.player, NEWCOMER).lastEnqueued then OutOfOrder
    else if s.queued >= c.capacity then QueueFull
    else if queue != [] && p.number <= queue[|queue| - 1].number then OutOfOrder
    else Accepted
  }

  function Enqueue(c: Config, s: State, p: Pickup): State {
    var known := Ensure(s.players, p.player);
    if Verdict(c, s, p) != Accepted then s.(players := known)
    else
      s.(players := known[p.player := known[p.player].(lastEnqueued := p.number)],
         queues := s.queues[p.player := QueueOf(s.queues, p.player) + [p]], queued := s.queued + 1)
  }

  function Emptied(h: Holder): Holder {
    h.(totalValue := 0, totalWeight := 0, lastPickup := 0, lastEnqueued := 0, items := [])
  }

  function Wiped(s: State): State { EMPTY.(players := map id | id in s.players :: Emptied(s.players[id])) }

  // ---------------------------------------------------------------------------------------------
  // The stages of a tick
  // ---------------------------------------------------------------------------------------------

  /** A tick under way: the state, what has been reported so far, and whose inventory changed. */
  datatype Work = Work(s: State, spawned: seq<Spawn>, results: seq<Resolution>, changed: set<nat>)

  function SeeMoves(players: Holders, moves: seq<(nat, (real, real))>): Holders {
    if moves == [] then players
    else
      var last := moves[|moves| - 1];
      var known := Ensure(SeeMoves(players, moves[..|moves| - 1]), last.0);
      known[last.0 := known[last.0].(pos := last.1)]
  }

  function SeeCombat(players: Holders, news: seq<(nat, bool)>): Holders {
    if news == [] then players
    else
      var last := news[|news| - 1];
      var known := Ensure(SeeCombat(players, news[..|news| - 1]), last.0);
      known[last.0 := known[last.0].(alive := last.1)]
  }

  function Begin(s: State, i: Input): Work {
    Work(s.(players := SeeCombat(SeeMoves(s.players, i.moves), i.combat)), [], [], {})
  }

  function Put(w: Work, spawn: Spawn): Work {
    w.(s := w.s.(active := w.s.active[spawn.id := spawn], nextId := w.s.nextId + 1), spawned := w.spawned + [spawn])
  }

  predicate IsDue(c: Config, defs: seq<Treasure>, s: State, tick: nat) {
    defs != [] && c.spawnInterval > 0 && tick % c.spawnInterval == 0 && |s.active| < c.maxActive
  }

  function NextTreasure(defs: seq<Treasure>, s: State): Treasure
    requires defs != []
  {
    defs[s.nextDefinition % |defs|]
  }

  function Schedule(c: Config, defs: seq<Treasure>, w: Work, tick: nat): Work {
    if !IsDue(c, defs, w.s, tick) then w
    else
      var id := w.s.nextId;
      var put := Put(w, Spawn(id, NextTreasure(defs, w.s), ScheduledPosition(c, id), Scheduled, tick));
      put.(s := put.s.(nextDefinition := w.s.nextDefinition + 1))
  }

  /** The items turned back into spawns, in order, round the place where their holder died. */
  function DropItems(c: Config, w: Work, tick: nat, items: seq<Item>, origin: (real, real)): Work {
    if items == [] then w
    else
      var n := |items| - 1;
      var before := DropItems(c, w, tick, items[..n], origin);
      Put(before, Spawn(before.s.nextId, items[n].treasure, DropPosition(c, origin, n), DeathDrop, tick))
  }

  function ClearInventory(w: Work, victim: nat): Work
    requires victim in w.s.players
  {
    w.(s := w.s.(players := w.s.players[victim := w.s.players[victim].(items := [], totalValue := 0, totalWeight := 0)]),
       changed := w.changed + {victim})
  }

  function DropOf(c: Config, w: Work, tick: nat, victim: nat): Work {
    if victim !in w.s.players || w.s.players[victim].items == [] then w
    else
      var h := w.s.players[victim];
      DropKeepsPlayers(c, w, tick, h.items, h.pos);
      ClearInventory(DropItems(c, w, tick, h.items, h.pos), victim)
  }

  lemma {:induction false} DropKeepsPlayers(c: Config, w: Work, tick: nat, items: seq<Item>, origin: (real, real))
    ensures var v := DropItems(c, w, tick, items, origin);
            && v.s == w.s.(active := v.s.active, nextId := v.s.nextId)
            && v.results == w.results && v.changed == w.changed
            && v.s.nextId == w.s.nextId + |items|
  {
    if items != [] { DropKeepsPlayers(c, w, tick, items[..|items| - 1], origin); }
  }

  function DropAll(c: Config, w: Work, tick: nat, victims: seq<nat>): Work {
    if victims == [] then w else DropOf(c, DropAll(c, w, tick, victims[..|victims| - 1]), tick, victims[|victims| - 1])
  }

  ghost function DeathDrops(c: Config, w: Work, i: Input): Work {
    if c.mode == All then DropAll(c, w, i.tick, InOrder(Combat.Victims(i.deaths))) else w
  }

  function Judge(c: Config, s: State, p: Pickup): Status {
    if p.player !in s.players then PlayerMissing
    else
      var h := s.players[p.player];
      if !h.alive then PlayerDead
      else if p.spawn in s.consumed then DuplicatePickup
      else if p.spawn !in s.active then UnknownSpawn
      else if !InReach(c, s.active[p.spawn].pos, h.pos) then OutOfRange
      else if |h.items| + 1 > c.maxItems then InventoryCapacityExceeded
      else if h.totalWeight + s.active[p.spawn].treasure.weight > c.maxWeight then WeightLimitExceeded
      else Collected
  }

  function Noted(h: Holder, p: Pickup): Holder { h.(lastPickup := Max(h.lastPickup, p.number)) }

  function Take(h: Holder, spawn: Spawn): Holder {
    h.(items := h.items + [Item(spawn.id, spawn.treasure)], totalValue := h.totalValue + spawn.treasure.value,
       totalWeight := h.totalWeight + spawn.treasure.weight)
  }

  function Answer(p: Pickup, status: Status, treasureId: string, h: Holder): Resolution {
    Resolution(p, status, treasureId, h.totalValue, h.totalWeight, |h.items|)
  }

  function Resolve(c: Config, w: Work, p: Pickup): Work {
    var status := Judge(c, w.s, p);
    if status == PlayerMissing then w.(results := w.results + [Resolution(p, status, "", 0, 0, 0)])
    else
      var h := Noted(w.s.players[p.player], p);
      if status != Collected then
        w.(s := w.s.(players := w.s.players[p.player := h]), results := w.results + [Answer(p, status, "", h)])
      else
        var spawn := w.s.active[p.spawn];
        var full := Take(h, spawn);
        Work(w.s.(players := w.s.players[p.player := full], consumed := w.s.consumed + {p.spawn}, active := w.s.active - {p.spawn}),
             w.spawned, w.results + [Answer(p, status, spawn.treasure.id, full)], w.changed + {p.player})
  }

  function ResolveAll(c: Config, w: Work, pickups: seq<Pickup>): Work {
    if pickups == [] then w else Resolve(c, ResolveAll(c, w, pickups[..|pickups| - 1]), pickups[|pickups| - 1])
  }

  ghost function Drain(w: Work): Work {
    w.(s := w.s.(queues := map[], queued := Max(0, w.s.queued - Waiting(w.s.queues))))
  }

  function SummaryOf(players: Holders, id: nat): Summary {
    var h := Get(players, id, NEWCOMER);
    Summary(id, h.totalValue, h.totalWeight, |h.items|, h.lastPickup)
  }

  function Summaries(players: Holders, ids: seq<nat>): seq<Summary> { seq(|ids|, k requires 0 <= k < |ids| => SummaryOf(players, ids[k])) }

  /** The state before pickups are served. */
  ghost function Stocked(c: Config, defs: seq<Treasure>, s: State, i: Input): Work {
    DeathDrops(c, Schedule(c, defs, Begin(s, i), i.tick), i)
  }

  ghost function Served(c: Config, defs: seq<Treasure>, s: State, i: Input): Work {
    var w := Stocked(c, defs, s, i);
    ResolveAll(c, Drain(w), Drained(w.s.queues))
  }

  ghost function Tick(c: Config, defs: seq<Treasure>, s: State, i: Input): (State, Report) {
    var w := Served(c, defs, s, i);
    (w.s, Report(w.spawned, w.results, Summaries(w.s.players, InOrder(w.changed))))
  }

  // ---------------------------------------------------------------------------------------------
  // Runs
  // ---------------------------------------------------------------------------------------------

  /** The fixed surroundings of a run. */
  datatype Shop = Shop(config: Config, defs: seq<Treasure>)

  datatype Event = Join(id: nat) | Leave(id: nat) | Reset | Ask(pickup: Pickup) | TickEvent(input: Input)

  const QUIET := Report([], [], [])

  ghost function Step(h: Shop, s: State, e: Event): (State, Report) {
    match e
    case Join(id) => (s.(players := Ensure(s.players, id)), QUIET)
    case Leave(id) => (Remove(s, id), QUIET)
    case Reset => (Wiped(s), QUIET)
    case Ask(p) => (Enqueue(h.config, s, p), QUIET)
    case TickEvent(i) => Tick(h.config, h.defs, s, i)
  }

  ghost function Run(h: Shop, s: State, events: seq<Event>): State
    decreases events
  {
    if events == [] then s else Run(h, Step(h, s, events[0]).0, events[1..])
  }
}
