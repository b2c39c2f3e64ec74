/** The loot economy over whole runs: conservation, the life of a spawn id, and the books kept on each player. */
module LootRuns {
  import opened Prelude
  import opened Ids
  import opened Totals
  import opened Queues
  import Combat
  import opened Loot

  // ---------------------------------------------------------------------------------------------
  // What there is
  // ---------------------------------------------------------------------------------------------

  ghost function GoodsOf(items: seq<Item>): multiset<Treasure> {
    if items == [] then multiset{} else GoodsOf(items[..|items| - 1]) + multiset{items[|items| - 1].treasure}
  }

  ghost function Lying(active: Spawns): map<nat, multiset<Treasure>> { map id | id in active :: multiset{active[id].treasure} }

  ghost function Carried(players: Holders): map<nat, multiset<Treasure>> { map p | p in players :: GoodsOf(players[p].items) }

  /** Everything on the ground and in inventories, counted with multiplicity. */
  ghost function Goods(s: State): multiset<Treasure> { Pool(Lying(s.active)) + Pool(Carried(s.players)) }

  lemma PutDown(active: Spawns, id: nat, spawn: Spawn)
    requires id !in active
    ensures Pool(Lying(active[id := spawn])) == Pool(Lying(active)) + multiset{spawn.treasure}
  {
    hide Pool;
    PoolAfterUpdate(Lying(active), id, multiset{spawn.treasure});
    assert Lying(active[id := spawn]) == Lying(active)[id := multiset{spawn.treasure}];
  }

  lemma LyingWithout(active: Spawns, id: nat)
    requires id in active
    ensures Lying(active - {id}) == Lying(active) - {id} && Lying(active)[id] == multiset{active[id].treasure}
  {
  }

  lemma TakenUp(active: Spawns, id: nat)
    requires id in active
    ensures Pool(Lying(active)) == multiset{active[id].treasure} + Pool(Lying(active - {id}))
  {
    hide Pool;
    LyingWithout(active, id);
    PoolWithout(Lying(active), id);
  }

  lemma NewHolding(players: Holders, p: nat, h: Holder)
    ensures Pool(Carried(players[p := h])) + GoodsOf(Get(players, p, NEWCOMER).items) == Pool(Carried(players)) + GoodsOf(h.items)
  {
    hide Pool;
    var carried, after := Carried(players), Carried(players[p := h]);
    assert after == carried[p := GoodsOf(h.items)];
    assert Get(carried, p, multiset{}) == GoodsOf(Get(players, p, NEWCOMER).items);
    hide GoodsOf, Carried;
    PoolAfterUpdate(carried, p, GoodsOf(h.items));
  }

  // ---------------------------------------------------------------------------------------------
  // The invariants
  // ---------------------------------------------------------------------------------------------

  /** Every id issued so far is either on the ground or consumed, never both. */
  ghost predicate IdsSplit(s: State) {
    && s.nextId >= 1
    && (forall id :: id in s.active || id in s.consumed <==> 1 <= id < s.nextId)
    && (forall id :: id in s.active ==> id !in s.consumed)
    && (forall id :: id in s.active ==> s.active[id].id == id)
  }

  ghost predicate HoldsAt(players: Holders, p: nat, k: nat, source: nat) {
    p in players && k < |players[p].items| && players[p].items[k].source == source
  }

  /** Every item carried came from a consumed spawn, and no two items from the same one. */
  ghost predicate Provenance(players: Holders, consumed: set<nat>) {
    && (forall p, k, id :: HoldsAt(players, p, k, id) ==> id in consumed)
    && (forall p, k, q, l, id :: HoldsAt(players, p, k, id) && HoldsAt(players, q, l, id) ==> p == q && k == l)
  }

  function ValueOf(items: seq<Item>): int {
    if items == [] then 0 else ValueOf(items[..|items| - 1]) + items[|items| - 1].treasure.value
  }

  function WeightOf(items: seq<Item>): int {
    if items == [] then 0 else WeightOf(items[..|items| - 1]) + items[|items| - 1].treasure.weight
  }

  /** The totals kept are the sums of what is carried, and both limits are respected. */
  ghost predicate Books(c: Config, h: Holder) {
    h.totalValue == ValueOf(h.items) && h.totalWeight == WeightOf(h.items) <= c.maxWeight && |h.items| <= c.maxItems
  }

  ghost predicate AllBooks(c: Config, players: Holders) { forall p :: p in players ==> Books(c, players[p]) }

  /** The counter is the number of waiting pickups, within capacity, and everybody who waits is known. */
  ghost predicate Counted(c: Config, s: State) {
    && s.queued == Waiting(s.queues) <= c.capacity
    && (forall p :: p in s.queues ==> p in s.players && forall x :: x in s.queues[p] ==> x.player == p)
  }

  ghost predicate Orderly(c: Config, s: State) {
    IdsSplit(s) && Provenance(s.players, s.consumed) && AllBooks(c, s.players)
  }

  ghost predicate Limited(c: Config) { c.maxWeight > 0 && c.maxItems > 0 && c.capacity > 0 && c.spawnInterval > 0 }

  // ---------------------------------------------------------------------------------------------
  // News leaves belongings alone
  // ---------------------------------------------------------------------------------------------

  ghost predicate SameBelongings(a: Holders, b: Holders) {
    && (forall p :: p in a ==> p in b)
    && (forall p :: p in b ==> var h := Get(a, p, NEWCOMER);
          b[p].items == h.items && b[p].totalValue == h.totalValue && b[p].totalWeight == h.totalWeight)
  }

  lemma BelongingsOnBelongings(a: Holders, b: Holders, d: Holders)
    requires SameBelongings(a, b) && SameBelongings(b, d)
    ensures SameBelongings(a, d)
  {
  }

  lemma {:induction false} MovesKeepBelongings(players: Holders, moves: seq<(nat, (real, real))>)
    ensures SameBelongings(players, SeeMoves(players, moves))
  {
    if moves != [] { MovesKeepBelongings(players, moves[..|moves| - 1]); }
  }

  lemma {:induction false} CombatKeepsBelongings(players: Holders, news: seq<(nat, bool)>)
    ensures SameBelongings(players, SeeCombat(players, news))
  {
    if news != [] { CombatKeepsBelongings(players, news[..|news| - 1]); }
  }

  lemma {:induction false} EmptyHandsAddNothing<T>(m: map<nat, multiset<T>>, n: map<nat, multiset<T>>)
    requires forall k :: k in m ==> k in n && n[k] == m[k]
    requires forall k :: k in n && k !in m ==> n[k] == multiset{}
    ensures Pool(n) == Pool(m)
    decreases |n|
  {
    if k :| k in n && k !in m {
      assert |(n - {k}).Keys| < |n.Keys|;
      PoolWithout(n, k);
      EmptyHandsAddNothing(m, n - {k});
    } else {
      assert n == m;
    }
  }

  lemma SameBelongingsSameGoods(a: Holders, b: Holders)
    requires SameBelongings(a, b)
    ensures Pool(Carried(b)) == Pool(Carried(a))
  {
    EmptyHandsAddNothing(Carried(a), Carried(b));
  }

  lemma SameBelongingsSameBooks(c: Config, a: Holders, b: Holders, consumed: set<nat>)
    requires Limited(c) && SameBelongings(a, b)
    ensures AllBooks(c, a) ==> AllBooks(c, b)
    ensures Provenance(a, consumed) ==> Provenance(b, consumed)
  {
    forall p, k, id ensures HoldsAt(b, p, k, id) ==> HoldsAt(a, p, k, id) {
      assert p in b ==> b[p].items == Get(a, p, NEWCOMER).items;
    }
  }

  lemma BeginKeeps(c: Config, s: State, i: Input)
    requires Limited(c) && Orderly(c, s)
    ensures var t := Begin(s, i).s; Orderly(c, t) && Goods(t) == Goods(s)
    ensures SameBelongings(s.players, Begin(s, i).s.players)
  {
    hide Pool;
    var moved := SeeMoves(s.players, i.moves);
    MovesKeepBelongings(s.players, i.moves);
    CombatKeepsBelongings(moved, i.combat);
    BelongingsOnBelongings(s.players, moved, SeeCombat(moved, i.combat));
    SameBelongingsSameGoods(s.players, SeeCombat(moved, i.combat));
    SameBelongingsSameBooks(c, s.players, SeeCombat(moved, i.combat), s.consumed);
  }

  // ---------------------------------------------------------------------------------------------
  // Spawning
  // ---------------------------------------------------------------------------------------------

  lemma PutKeeps(c: Config, w: Work, spawn: Spawn)
    requires Orderly(c, w.s) && spawn.id == w.s.nextId
    ensures Orderly(c, Put(w, spawn).s)
    ensures Pool(Lying(Put(w, spawn).s.active)) == Pool(Lying(w.s.active)) + multiset{spawn.treasure}
  {
    hide Pool;
    PutDown(w.s.active, spawn.id, spawn);
  }

  /** What the schedule adds: nothing, or one treasure of the catalogue. */
  ghost function Minted(c: Config, defs: seq<Treasure>, s: State, tick: nat): multiset<Treasure> {
    if IsDue(c, defs, s, tick) then multiset{NextTreasure(defs, s)} else multiset{}
  }

  lemma ScheduleKeeps(c: Config, defs: seq<Treasure>, w: Work, tick: nat)
    requires Orderly(c, w.s)
    ensures var v := Schedule(c, defs, w, tick); Orderly(c, v.s) && Goods(v.s) == Goods(w.s) + Minted(c, defs, w.s, tick)
  {
    hide Pool;
    var id := w.s.nextId;
    if IsDue(c, defs, w.s, tick) {
      PutKeeps(c, w, Spawn(id, NextTreasure(defs, w.s), ScheduledPosition(c, id), Scheduled, tick));
    }
  }

  lemma {:induction false} DropItemsKeeps(c: Config, w: Work, tick: nat, items: seq<Item>, origin: (real, real))
    requires Orderly(c, w.s)
    ensures var v := DropItems(c, w, tick, items, origin);
            Orderly(c, v.s) && Pool(Lying(v.s.active)) == Pool(Lying(w.s.active)) + GoodsOf(items)
  {
    hide Pool;
    if items != [] {
      var n := |items| - 1;
      DropItemsKeeps(c, w, tick, items[..n], origin);
      var before := DropItems(c, w, tick, items[..n], origin);
      PutKeeps(c, before, Spawn(before.s.nextId, items[n].treasure, DropPosition(c, origin, n), DeathDrop, tick));
    }
  }

  lemma ClearKeeps(c: Config, w: Work, victim: nat)
    requires Limited(c) && Orderly(c, w.s) && victim in w.s.players
    ensures Orderly(c, ClearInventory(w, victim).s)
    ensures Pool(Carried(ClearInventory(w, victim).s.players)) + GoodsOf(w.s.players[victim].items) == Pool(Carried(w.s.players))
  {
    hide Pool;
    var t := ClearInventory(w, victim).s.players;
    NewHolding(w.s.players, victim, t[victim]);
    forall p, k, id ensures HoldsAt(t, p, k, id) ==> HoldsAt(w.s.players, p, k, id) {}
  }

  /** The items lie under the next ids, in order, and whatever lay there before still does. */
  ghost predicate LaidDown(before: State, after: State, items: seq<Item>) {
    && after.nextId == before.nextId + |items|
    && (forall k :: 0 <= k < |items| ==> LiesAt(after, before.nextId + k, items[k].treasure))
    && (forall id :: id in before.active ==> id in after.active && after.active[id] == before.active[id])
    && (forall id :: id in after.active && id !in before.active ==> before.nextId <= id < after.nextId)
  }

  predicate LiesAt(s: State, id: nat, t: Treasure) { id in s.active && s.active[id].treasure == t && s.active[id].source == DeathDrop }

  lemma {:induction false} DropItemsLayDown(c: Config, w: Work, tick: nat, items: seq<Item>, origin: (real, real))
    requires forall id :: id in w.s.active ==> id < w.s.nextId
    ensures LaidDown(w.s, DropItems(c, w, tick, items, origin).s, items)
  {
    DropKeepsPlayers(c, w, tick, items, origin);
    if items != [] {
      var n := |items| - 1;
      DropItemsLayDown(c, w, tick, items[..n], origin);
      DropKeepsPlayers(c, w, tick, items[..n], origin);
      OneMoreLaidDown(w.s, DropItems(c, w, tick, items[..n], origin).s, DropItems(c, w, tick, items, origin).s, items);
    }
  }

  lemma OneMoreLaidDown(before: State, middle: State, after: State, items: seq<Item>)
    requires items != [] && LaidDown(before, middle, items[..|items| - 1])
    requires forall id :: id in before.active ==> id < before.nextId
    requires middle.nextId in after.active && after.active == middle.active[middle.nextId := after.active[middle.nextId]]
    requires LiesAt(after, middle.nextId, items[|items| - 1].treasure) && after.nextId == middle.nextId + 1
    ensures LaidDown(before, after, items)
  {
    var n := |items| - 1;
    forall k | 0 <= k < |items| ensures LiesAt(after, before.nextId + k, items[k].treasure) {
      if k < n { assert LiesAt(middle, before.nextId + k, items[..n][k].treasure); }
    }
  }

  /** A death drop empties the victim's inventory onto the ground, item by item, and touches nobody else's. */
  lemma DropLaysDown(c: Config, w: Work, tick: nat, victim: nat)
    requires IdsSplit(w.s)
    ensures var v, items := DropOf(c, w, tick, victim), Get(w.s.players, victim, NEWCOMER).items;
            && LaidDown(w.s, v.s, items)
            && Get(v.s.players, victim, NEWCOMER).items == []
            && forall p :: p in w.s.players && p != victim ==> p in v.s.players && v.s.players[p] == w.s.players[p]
  {
    if victim in w.s.players && w.s.players[victim].items != [] {
      var h := w.s.players[victim];
      DropKeepsPlayers(c, w, tick, h.items, h.pos);
      DropItemsLayDown(c, w, tick, h.items, h.pos);
    }
  }

  /** A death drop moves an inventory to the ground and loses nothing on the way. */
  lemma DropConserves(c: Config, w: Work, tick: nat, victim: nat)
    requires Limited(c) && Orderly(c, w.s)
    ensures var v := DropOf(c, w, tick, victim); Orderly(c, v.s) && Goods(v.s) == Goods(w.s)
    ensures var v := DropOf(c, w, tick, victim); v.s.players.Keys == w.s.players.Keys && v.s.queues == w.s.queues && v.s.queued == w.s.queued
    ensures DropOf(c, w, tick, victim).s.consumed == w.s.consumed && DropOf(c, w, tick, victim).results == w.results
    ensures LaidDown(w.s, DropOf(c, w, tick, victim).s, Get(w.s.players, victim, NEWCOMER).items)
    ensures Get(DropOf(c, w, tick, victim).s.players, victim, NEWCOMER).items == []
  {
    hide Pool, GoodsOf, IdsSplit, Provenance, AllBooks, LaidDown;
    DropLaysDown(c, w, tick, victim);
    if victim in w.s.players && w.s.players[victim].items != [] {
      var h := w.s.players[victim];
      DropKeepsPlayers(c, w, tick, h.items, h.pos);
      DropItemsKeeps(c, w, tick, h.items, h.pos);
      ClearKeeps(c, DropItems(c, w, tick, h.items, h.pos), victim);
    }
  }

  lemma {:induction false} DropAllConserves(c: Config, w: Work, tick: nat, victims: seq<nat>)
    requires Limited(c) && Orderly(c, w.s)
    ensures var v := DropAll(c, w, tick, victims);
            && Orderly(c, v.s) && Goods(v.s) == Goods(w.s)
            && v.s.players.Keys == w.s.players.Keys && v.s.queues == w.s.queues && v.s.queued == w.s.queued
            && v.s.consumed == w.s.consumed && v.results == w.results
  {
    hide Pool;
    if victims != [] {
      DropAllConserves(c, w, tick, victims[..|victims| - 1]);
      DropConserves(c, DropAll(c, w, tick, victims[..|victims| - 1]), tick, victims[|victims| - 1]);
    }
  }

  lemma StockedKeeps(c: Config, defs: seq<Treasure>, s: State, i: Input)
    requires Limited(c) && Orderly(c, s)
    ensures var w := Stocked(c, defs, s, i);
            && Orderly(c, w.s) && Goods(w.s) == Goods(s) + Minted(c, defs, s, i.tick)
            && (forall p :: p in s.players ==> p in w.s.players) && w.s.queues == s.queues && w.s.queued == s.queued
            && w.s.consumed == s.consumed && w.results == []
  {
    hide Pool, IdsSplit, Provenance, AllBooks;
    BeginKeeps(c, s, i);
    ScheduleKeeps(c, defs, Begin(s, i), i.tick);
    DropAllConserves(c, Schedule(c, defs, Begin(s, i), i.tick), i.tick, InOrder(Combat.Victims(i.deaths)));
  }

  // ---------------------------------------------------------------------------------------------
  // Pickups
  // ---------------------------------------------------------------------------------------------

  /** Asking in vain changes no belongings. */
  lemma RefusalKeeps(c: Config, w: Work, p: Pickup)
    requires Limited(c) && Orderly(c, w.s) && Judge(c, w.s, p) != Collected
    ensures var v := Resolve(c, w, p);
            && Orderly(c, v.s) && Goods(v.s) == Goods(w.s) && v.s.consumed == w.s.consumed && v.s.active == w.s.active
            && SameBelongings(w.s.players, v.s.players) && v.changed == w.changed
  {
    hide Pool, Provenance, AllBooks;
    var v := Resolve(c, w, p);
    assert SameBelongings(w.s.players, v.s.players);
    SameBelongingsSameGoods(w.s.players, v.s.players);
    SameBelongingsSameBooks(c, w.s.players, v.s.players, w.s.consumed);
  }

  lemma ProvenanceAfterTake(players: Holders, consumed: set<nat>, p: nat, h: Holder, id: nat, t: Treasure)
    requires Provenance(players, consumed) && p in players && id !in consumed && h.items == players[p].items + [Item(id, t)]
    ensures Provenance(players[p := h], consumed + {id})
  {
    var after := players[p := h];
    var n := |players[p].items|;
    forall q, k, other | HoldsAt(after, q, k, other) ensures HoldsAt(players, q, k, other) || (q == p && k == n && other == id) {}
  }

  lemma Moved<T>(ground: multiset<T>, left: multiset<T>, hands: multiset<T>, now: multiset<T>, held: multiset<T>, x: multiset<T>)
    requires ground == x + left && now + held == hands + (held + x)
    ensures left + now == ground + hands
  {
    forall t ensures (left + now)[t] == (ground + hands)[t] {
      assert (now + held)[t] == (hands + (held + x))[t];
    }
  }

  lemma CollectionConserves(c: Config, w: Work, p: Pickup)
    requires Orderly(c, w.s) && Judge(c, w.s, p) == Collected
    ensures Goods(Resolve(c, w, p).s) == Goods(w.s)
    ensures var t := Resolve(c, w, p).s;
            && t.active == w.s.active - {p.spawn} && t.consumed == w.s.consumed + {p.spawn}
            && t.players[p.player].items == w.s.players[p.player].items + [Item(p.spawn, w.s.active[p.spawn].treasure)]
            && forall q :: q in w.s.players && q != p.player ==> q in t.players && t.players[q] == w.s.players[q]
  {
    hide Pool;
    var spawn := w.s.active[p.spawn];
    var h := Noted(w.s.players[p.player], p);
    var full := Take(h, spawn);
    var t := Resolve(c, w, p).s;
    TakenUp(w.s.active, p.spawn);
    NewHolding(w.s.players, p.player, full);
    Moved(Pool(Lying(w.s.active)), Pool(Lying(t.active)), Pool(Carried(w.s.players)), Pool(Carried(t.players)),
          GoodsOf(h.items), multiset{spawn.treasure});
  }

  lemma CollectionKeeps(c: Config, w: Work, p: Pickup)
    requires Orderly(c, w.s) && Judge(c, w.s, p) == Collected
    ensures Orderly(c, Resolve(c, w, p).s)
  {
    var spawn := w.s.active[p.spawn];
    var h := Noted(w.s.players[p.player], p);
    ProvenanceAfterTake(w.s.players, w.s.consumed, p.player, Take(h, spawn), spawn.id, spawn.treasure);
  }

  /** A pickup moves its treasure from the ground to the player, or changes nothing that counts. */
  lemma PickupConserves(c: Config, w: Work, p: Pickup)
    requires Limited(c) && Orderly(c, w.s)
    ensures Orderly(c, Resolve(c, w, p).s) && Goods(Resolve(c, w, p).s) == Goods(w.s)
  {
    if Judge(c, w.s, p) == Collected {
      CollectionConserves(c, w, p);
      CollectionKeeps(c, w, p);
    } else {
      RefusalKeeps(c, w, p);
    }
  }

  lemma {:induction false} PickupsConserve(c: Config, w: Work, pickups: seq<Pickup>)
    requires Limited(c) && Orderly(c, w.s)
    ensures var v := ResolveAll(c, w, pickups); Orderly(c, v.s) && Goods(v.s) == Goods(w.s)
  {
    hide Pool;
    if pickups != [] {
      PickupsConserve(c, w, pickups[..|pickups| - 1]);
      PickupConserves(c, ResolveAll(c, w, pickups[..|pickups| - 1]), pickups[|pickups| - 1]);
    }
  }

  lemma TickKeeps(c: Config, defs: seq<Treasure>, s: State, i: Input)
    requires Limited(c) && Orderly(c, s)
    ensures var t := Tick(c, defs, s, i).0; Orderly(c, t) && Goods(t) == Goods(s) + Minted(c, defs, s, i.tick)
  {
    hide Pool;
    StockedKeeps(c, defs, s, i);
    var w := Stocked(c, defs, s, i);
    PickupsConserve(c, Drain(w), Drained(w.s.queues));
  }

  // ---------------------------------------------------------------------------------------------
  // Conservation over runs
  // ---------------------------------------------------------------------------------------------

  /** The ledger: what there should be after an event, given what there was. */
  ghost function Ledger(h: Shop, s: State, goods: multiset<Treasure>, e: Event): multiset<Treasure> {
    match e
    case TickEvent(i) => goods + Minted(h.config, h.defs, s, i.tick)
    case Reset => multiset{}
    case _ => goods
  }

  ghost function LedgerOver(h: Shop, s: State, goods: multiset<Treasure>, events: seq<Event>): multiset<Treasure>
    decreases events
  {
    if events == [] then goods else LedgerOver(h, Step(h, s, events[0]).0, Ledger(h, s, goods, events[0]), events[1..])
  }

  lemma WipedKeeps(c: Config, s: State)
    requires Limited(c)
    ensures Orderly(c, Wiped(s)) && Goods(Wiped(s)) == multiset{}
  {
    EmptyHandsAddNothing(map[], Carried(Wiped(s).players));
    assert Lying(map[]) == map[];
  }

  lemma PlayerOnlyStepKeeps(c: Config, s: State, t: State)
    requires Limited(c) && Orderly(c, s)
    requires SameBelongings(s.players, t.players) && t.active == s.active && t.consumed == s.consumed && t.nextId == s.nextId
    ensures Orderly(c, t) && Goods(t) == Goods(s)
  {
    SameBelongingsSameGoods(s.players, t.players);
    SameBelongingsSameBooks(c, s.players, t.players, s.consumed);
  }

  lemma StepKeeps(h: Shop, s: State, e: Event)
    requires Limited(h.config) && Orderly(h.config, s)
    ensures Orderly(h.config, Step(h, s, e).0) && Goods(Step(h, s, e).0) == Ledger(h, s, Goods(s), e)
  {
    hide Pool, Orderly, Tick;
    match e
    case TickEvent(i) => TickKeeps(h.config, h.defs, s, i);
    case Reset => WipedKeeps(h.config, s);
    case Join(id) => PlayerOnlyStepKeeps(h.config, s, s.(players := Ensure(s.players, id)));
    case Leave(id) => PlayerOnlyStepKeeps(h.config, s, Remove(s, id));
    case Ask(p) => PlayerOnlyStepKeeps(h.config, s, Enqueue(h.config, s, p));
  }

  /**
   * Over any run, ids stay split between ground and consumed, every item has its own consumed source, the books are
   * right and within limits, and the treasures there are change by scheduled spawns and by nothing else.
   */
  lemma {:induction false} RunsConserve(h: Shop, s: State, events: seq<Event>)
    requires Limited(h.config) && Orderly(h.config, s)
    ensures Orderly(h.config, Run(h, s, events)) && Goods(Run(h, s, events)) == LedgerOver(h, s, Goods(s), events)
    decreases events
  {
    if events != [] {
      StepKeeps(h, s, events[0]);
      RunsConserve(h, Step(h, s, events[0]).0, events[1..]);
    }
  }

  // ---------------------------------------------------------------------------------------------
  // What a refusal tells
  // ---------------------------------------------------------------------------------------------

  /** To a live player, "unknown" means an id never issued, and "duplicate" one already collected by somebody. */
  lemma RefusalTellsHistory(c: Config, s: State, p: Pickup)
    requires IdsSplit(s) && p.player in s.players && s.players[p.player].alive
    ensures Judge(c, s, p) == UnknownSpawn <==> p.spawn == 0 || p.spawn >= s.nextId
    ensures Judge(c, s, p) == DuplicatePickup <==> p.spawn in s.consumed
    ensures Judge(c, s, p) !in {UnknownSpawn, DuplicatePickup} <==> p.spawn in s.active
  {
  }

  lemma {:induction false} KnownAsNever(c: Config, w: Work, pickups: seq<Pickup>)
    requires forall x :: x in pickups ==> x.player in w.s.players
    requires forall r :: r in w.results ==> r.status != PlayerMissing
    ensures var v := ResolveAll(c, w, pickups);
            (forall r :: r in v.results ==> r.status != PlayerMissing) && v.s.players.Keys == w.s.players.Keys
  {
    if pickups != [] {
      var n := |pickups| - 1;
      assert pickups[n] in pickups && forall x :: x in pickups[..n] ==> x in pickups;
      KnownAsNever(c, w, pickups[..n]);
    }
  }

  /** Nobody whose pickup is served is missing. */
  lemma NobodyIsMissing(c: Config, defs: seq<Treasure>, s: State, i: Input)
    requires Limited(c) && Orderly(c, s) && Counted(c, s)
    ensures forall r :: r in Tick(c, defs, s, i).1.results ==> r.status != PlayerMissing
  {
    StockedKeeps(c, defs, s, i);
    var w := Stocked(c, defs, s, i);
    OwnersDrain(InOrder(w.s.queues.Keys), w.s.queues, w.s.players);
    KnownAsNever(c, Drain(w), Drained(w.s.queues));
  }

  lemma {:induction false} OwnersDrain(ids: seq<nat>, q: Queues<Pickup>, players: Holders)
    requires forall p :: p in q ==> p in players && forall x :: x in q[p] ==> x.player == p
    ensures forall x :: x in Joined(ids, q) ==> x.player in players
  {
    if ids != [] { OwnersDrain(ids[..|ids| - 1], q, players); }
  }

  // ---------------------------------------------------------------------------------------------
  // Each id at most once
  // ---------------------------------------------------------------------------------------------

  /** The spawn ids handed out, in order. */
  ghost function CollectedIds(results: seq<Resolution>): seq<nat> {
    if results == [] then []
    else
      var n := |results| - 1;
      CollectedIds(results[..n]) + if results[n].status == Collected then [results[n].pickup.spawn] else []
  }

  ghost predicate Distinct(ids: seq<nat>) { forall i, j :: 0 <= i < j < |ids| ==> ids[i] != ids[j] }

  /** Exactly the handed out ids joined the consumed ones, each once. */
  ghost predicate HandedOut(ids: seq<nat>, before: set<nat>, after: set<nat>) {
    Distinct(ids) && (forall id :: id in ids ==> id !in before) && after == before + set id | id in ids
  }

  lemma HandOutOne(ids: seq<nat>, before: set<nat>, after: set<nat>, id: nat)
    requires HandedOut(ids, before, after) && id !in after
    ensures HandedOut(ids + [id], before, after + {id})
  {
    assert forall k :: k in ids + [id] <==> k in ids || k == id;
    assert Distinct(ids + [id]);
  }

  lemma AnswerIsAppended(c: Config, w: Work, p: Pickup)
    ensures var v := Resolve(c, w, p);
            && |v.results| == |w.results| + 1 && v.results[..|w.results|] == w.results
            && v.results[|w.results|].pickup == p && v.results[|w.results|].status == Judge(c, w.s, p)
            && v.s.consumed == if Judge(c, w.s, p) == Collected then w.s.consumed + {p.spawn} else w.s.consumed
    ensures Judge(c, w.s, p) == Collected ==> p.spawn !in w.s.consumed
  {
    hide InReach;
  }

  lemma HandOut(c: Config, w: Work, p: Pickup, before: set<nat>)
    requires HandedOut(CollectedIds(w.results), before, w.s.consumed)
    ensures var v := Resolve(c, w, p); HandedOut(CollectedIds(v.results), before, v.s.consumed)
  {
    hide HandedOut, Resolve, Judge;
    AnswerIsAppended(c, w, p);
    var v := Resolve(c, w, p);
    assert CollectedIds(v.results) == CollectedIds(w.results) + if Judge(c, w.s, p) == Collected then [p.spawn] else [];
    if Judge(c, w.s, p) == Collected {
      HandOutOne(CollectedIds(w.results), before, w.s.consumed, p.spawn);
    } else {
      assert CollectedIds(v.results) == CollectedIds(w.results);
    }
  }

  lemma {:induction false} HandOutAll(c: Config, w: Work, pickups: seq<Pickup>, before: set<nat>)
    requires HandedOut(CollectedIds(w.results), before, w.s.consumed)
    ensures var v := ResolveAll(c, w, pickups); HandedOut(CollectedIds(v.results), before, v.s.consumed)
  {
    if pickups != [] {
      HandOutAll(c, w, pickups[..|pickups| - 1], before);
      HandOut(c, ResolveAll(c, w, pickups[..|pickups| - 1]), pickups[|pickups| - 1], before);
    }
  }

  lemma TickHandsOut(c: Config, defs: seq<Treasure>, s: State, i: Input)
    requires Limited(c) && Orderly(c, s)
    ensures var (t, out) := Tick(c, defs, s, i); HandedOut(CollectedIds(out.results), s.consumed, t.consumed)
  {
    StockedKeeps(c, defs, s, i);
    var w := Stocked(c, defs, s, i);
    HandOutAll(c, Drain(w), Drained(w.s.queues), s.consumed);
  }

  ghost function CollectedOver(h: Shop, s: State, events: seq<Event>): seq<nat>
    decreases events
  {
    if events == [] then []
    else
      var (t, out) := Step(h, s, events[0]);
      CollectedIds(out.results) + CollectedOver(h, t, events[1..])
  }

  lemma JoinHandOuts(a: seq<nat>, b: seq<nat>, before: set<nat>, middle: set<nat>, after: set<nat>)
    requires HandedOut(a, before, middle) && HandedOut(b, middle, after)
    ensures HandedOut(a + b, before, after)
  {
    forall i, j | 0 <= i < j < |a + b| ensures (a + b)[i] != (a + b)[j] {
      if i < |a| <= j { assert a[i] in middle && b[j - |a|] in b; }
    }
  }

  lemma StepHandsOut(h: Shop, s: State, e: Event)
    requires Limited(h.config) && Orderly(h.config, s) && !e.Reset?
    ensures var (t, out) := Step(h, s, e); HandedOut(CollectedIds(out.results), s.consumed, t.consumed)
  {
    if e.TickEvent? { TickHandsOut(h.config, h.defs, s, e.input); }
  }

  /** Until a reset, no spawn id is ever collected twice, and the collected ids are exactly the newly consumed ones. */
  lemma {:induction false} CollectedAtMostOnce(h: Shop, s: State, events: seq<Event>)
    requires Limited(h.config) && Orderly(h.config, s) && forall e :: e in events ==> !e.Reset?
    ensures HandedOut(CollectedOver(h, s, events), s.consumed, Run(h, s, events).consumed)
    decreases events
  {
    if events != [] {
      var t := Step(h, s, events[0]).0;
      assert events[0] in events && forall e :: e in events[1..] ==> e in events;
      StepKeeps(h, s, events[0]);
      StepHandsOut(h, s, events[0]);
      CollectedAtMostOnce(h, t, events[1..]);
      JoinHandOuts(CollectedIds(Step(h, s, events[0]).1.results), CollectedOver(h, t, events[1..]),
                   s.consumed, t.consumed, Run(h, s, events).consumed);
    }
  }

  // ---------------------------------------------------------------------------------------------
  // The queue counter
  // ---------------------------------------------------------------------------------------------

  lemma {:induction false} ServingKeepsQueues(c: Config, w: Work, pickups: seq<Pickup>)
    ensures var v := ResolveAll(c, w, pickups); v.s.queues == w.s.queues && v.s.queued == w.s.queued
  {
    if pickups != [] { ServingKeepsQueues(c, w, pickups[..|pickups| - 1]); }
  }

  lemma TickEmptiesQueues(c: Config, defs: seq<Treasure>, s: State, i: Input)
    requires Limited(c) && Orderly(c, s) && Counted(c, s)
    ensures Counted(c, Tick(c, defs, s, i).0) && Tick(c, defs, s, i).0.queues == map[]
  {
    hide Waiting;
    StockedKeeps(c, defs, s, i);
    var w := Stocked(c, defs, s, i);
    ServingKeepsQueues(c, Drain(w), Drained(w.s.queues));
    WaitingNothing<Pickup>();
  }

  lemma StepKeepsCount(h: Shop, s: State, e: Event)
    requires Limited(h.config) && Orderly(h.config, s) && Counted(h.config, s)
    ensures Counted(h.config, Step(h, s, e).0)
  {
    hide Waiting;
    match e
    case TickEvent(i) => TickEmptiesQueues(h.config, h.defs, s, i);
    case Leave(id) => WaitingAfterClear(s.queues, id);
    case Ask(p) => WaitingAfterEnqueue(s.queues, p.player, p);
    case Join(id) =>
    case Reset => WaitingNothing<Pickup>();
  }

  /** Over any run the counter equals the summed queue lengths and never passes the capacity. */
  lemma {:induction false} RunsKeepCount(h: Shop, s: State, events: seq<Event>)
    requires Limited(h.config) && Orderly(h.config, s) && Counted(h.config, s)
    ensures Counted(h.config, Run(h, s, events))
    decreases events
  {
    if events != [] {
      StepKeeps(h, s, events[0]);
      StepKeepsCount(h, s, events[0]);
      RunsKeepCount(h, Step(h, s, events[0]).0, events[1..]);
    }
  }

  // ---------------------------------------------------------------------------------------------
  // The order of the death list
  // ---------------------------------------------------------------------------------------------

  /** Only who died matters to a tick, not in which order or how often the deaths are listed. */
  lemma DeathOrderDoesNotMatter(c: Config, defs: seq<Treasure>, s: State, i: Input, deaths: seq<Combat.Death>)
    requires Combat.Victims(deaths) == Combat.Victims(i.deaths)
    ensures Tick(c, defs, s, i.(deaths := deaths)) == Tick(c, defs, s, i)
  {
    assert Begin(s, i.(deaths := deaths)) == Begin(s, i);
  }

  /** From an empty world: everything there is was scheduled, and the counter is right. */
  lemma RunsFromTheStart(h: Shop, events: seq<Event>)
    requires Limited(h.config)
    ensures var s := Run(h, EMPTY, events);
            Orderly(h.config, s) && Counted(h.config, s) && Goods(s) == LedgerOver(h, EMPTY, multiset{}, events)
  {
    assert Lying(map[]) == map[] && Carried(map[]) == map[];
    WaitingNothing<Pickup>();
    RunsConserve(h, EMPTY, events);
    RunsKeepCount(h, EMPTY, events);
  }
}
