/** What the wiring of server/src/main.cpp makes of inventories: the dead carry nothing, and coins are what is carried. */
module ServerLoot {
  import opened Prelude
  import opened Ids
  import opened ServerTick
  import Queues
  import Raycast
  import Combat
  import CombatRuns
  import Match
  import MatchRuns
  import Loot
  import LootRuns

  // ---------------------------------------------------------------------------------------------
  // A tick of the loot
  // ---------------------------------------------------------------------------------------------

  function ItemsOf(s: Loot.State, id: nat): seq<Loot.Item> { Get(s.players, id, Loot.NEWCOMER).items }

  function WorthOf(s: Loot.State, id: nat): int { Get(s.players, id, Loot.NEWCOMER).totalValue }

  /** Known to the loot, dead there, and carrying these items. */
  predicate DeadWith(players: Loot.Holders, id: nat, items: seq<Loot.Item>) {
    id in players && !players[id].alive && players[id].items == items
  }

  /** Whatever the list says of id, it says that id is dead; and it says so at least once. */
  ghost predicate SaysDead(news: seq<(nat, bool)>, id: nat) {
    (id, false) in news && (id, true) !in news
  }

  lemma {:induction false} NewsOfDeath(players: Loot.Holders, news: seq<(nat, bool)>, id: nat)
    requires (id, true) !in news
    ensures var t := Loot.SeeCombat(players, news);
            && ((id, false) in news ==> id in t && !t[id].alive)
            && ((id, false) !in news ==> (id in t <==> id in players) && (id in t ==> t[id].alive == players[id].alive))
  {
    if news != [] {
      var n := |news| - 1;
      assert news == news[..n] + [news[n]];
      NewsOfDeath(players, news[..n], id);
    }
  }

  /** The corpses lose what they carry; nobody else does, and nobody rises. */
  lemma {:induction false} DropsEmptyTheVictims(c: Loot.Config, w: Loot.Work, tick: nat, victims: seq<nat>, id: nat, items: seq<Loot.Item>)
    requires DeadWith(w.s.players, id, items)
    ensures DeadWith(Loot.DropAll(c, w, tick, victims).s.players, id, if id in victims then [] else items)
  {
    if victims != [] {
      var n := |victims| - 1;
      assert victims == victims[..n] + [victims[n]];
      DropsEmptyTheVictims(c, w, tick, victims[..n], id, items);
      OneDrop(c, Loot.DropAll(c, w, tick, victims[..n]), tick, victims[n], id);
    }
  }

  lemma OneDrop(c: Loot.Config, w: Loot.Work, tick: nat, victim: nat, id: nat)
    requires id in w.s.players && !w.s.players[id].alive
    ensures DeadWith(Loot.DropOf(c, w, tick, victim).s.players, id, if id == victim then [] else w.s.players[id].items)
  {
    if victim in w.s.players {
      Loot.DropKeepsPlayers(c, w, tick, w.s.players[victim].items, w.s.players[victim].pos);
      hide Loot.DropItems;
    }
  }

  lemma {:induction false} TheDeadCollectNothing(c: Loot.Config, w: Loot.Work, pickups: seq<Loot.Pickup>, id: nat, items: seq<Loot.Item>)
    requires DeadWith(w.s.players, id, items)
    ensures DeadWith(Loot.ResolveAll(c, w, pickups).s.players, id, items)
  {
    hide Loot.InReach;
    if pickups != [] { TheDeadCollectNothing(c, w, pickups[..|pickups| - 1], id, items); }
  }

  /** Who is reported dead in a tick collects nothing, and drops what it carried exactly if it just fell and deaths drop. */
  lemma LootTickOnTheDead(h: Loot.Shop, s: Loot.State, i: Loot.Input, id: nat)
    requires SaysDead(i.combat, id)
    ensures ItemsOf(Loot.Tick(h.config, h.defs, s, i).0, id) ==
            if h.config.mode == Loot.All && id in Combat.Victims(i.deaths) then [] else ItemsOf(s, id)
  {
    var items := ItemsOf(s, id);
    var moved := Loot.SeeMoves(s.players, i.moves);
    LootRuns.MovesKeepBelongings(s.players, i.moves);
    LootRuns.CombatKeepsBelongings(moved, i.combat);
    NewsOfDeath(moved, i.combat, id);
    var begun := Loot.Begin(s, i);
    assert DeadWith(begun.s.players, id, items);
    hide Loot.SeeMoves, Loot.SeeCombat, Loot.DropAll, Loot.ResolveAll;
    var scheduled := Loot.Schedule(h.config, h.defs, begun, i.tick);
    var victims := InOrder(Combat.Victims(i.deaths));
    DropsEmptyTheVictims(h.config, scheduled, i.tick, victims, id, items);
    var w := Loot.Stocked(h.config, h.defs, s, i);
    var left := if h.config.mode == Loot.All && id in victims then [] else items;
    TheDeadCollectNothing(h.config, Loot.Drain(w), Queues.Drained(w.s.queues), id, left);
  }

  lemma SnapshotSaysDead(f: Combat.Fighters, id: nat)
    requires id in f && !f[id].alive
    ensures SaysDead(Snapshot(f), id)
  {
    var ids := InOrder(f.Keys);
    assert id in ids;
    var k :| 0 <= k < |ids| && ids[k] == id;
    assert Snapshot(f)[k] == (id, false);
    forall j | 0 <= j < |ids| ensures Snapshot(f)[j] != (id, true) { assert ids[j] in ids; }
  }

  // ---------------------------------------------------------------------------------------------
  // The dead carry nothing
  // ---------------------------------------------------------------------------------------------

  ghost predicate EmptyHanded(s: Server) { forall id :: Dead(s, id) ==> ItemsOf(s.loot, id) == [] }

  lemma TickEmptiesTheDead(r: Rules, s: Server, f: Frame, id: nat)
    requires Sane(r) && r.shop.config.mode == Loot.All && CombatRuns.Sound(r.combat, s.combat) && EmptyHanded(s)
    requires Dead(TickServer(r, s, f), id)
    ensures ItemsOf(TickServer(r, s, f).loot, id) == []
  {
    hide Match.Tick, Fight, CombatRuns.Sound, Loot.Tick, RespawnAll, Snapshot;
    FightListsTheFallen(r, s, f);
    RespawningRevives(r.combat, Fight(r, s, f).0, Match.Tick(r.game, s.game, News(r, s, f)).1.respawned);
    SnapshotSaysDead(Fight(r, s, f).0.fighters, id);
    LootTickOnTheDead(r.shop, s.loot, LootNews(r, s, f), id);
  }

  lemma OtherStepKeepsHands(r: Rules, s: Server, e: Event, id: nat)
    requires !e.Tick? && Dead(Step(r, s, e), id)
    ensures Dead(s, id) && ItemsOf(Step(r, s, e).loot, id) == ItemsOf(s.loot, id)
  {
    match e {
      case Join(_) => hide Match.Step;
      case Leave(_) => hide Match.Step;
      case Shoot(fire) =>
        hide CombatRuns.Step, Loot.Step;
        QueuedShotFellsNobody(r.combat, s.combat, fire, id);
      case Ask(_) => hide Loot.Verdict;
    }
  }

  lemma {:induction false} RunsEmptyTheDead(r: Rules, events: seq<Event>)
    requires Sane(r) && r.shop.config.mode == Loot.All
    ensures EmptyHanded(Run(r, events))
  {
    if events != [] {
      hide Step, Wired, ItemsOf, Dead;
      var s, e := Run(r, events[..|events| - 1]), events[|events| - 1];
      RunsAreWired(r, events[..|events| - 1]);
      RunsEmptyTheDead(r, events[..|events| - 1]);
      StepEmptiesTheDead(r, s, e);
    }
  }

  lemma StepEmptiesTheDead(r: Rules, s: Server, e: Event)
    requires Sane(r) && r.shop.config.mode == Loot.All && Wired(r, s) && EmptyHanded(s)
    ensures EmptyHanded(Step(r, s, e))
  {
    var t := Step(r, s, e);
    forall id | Dead(t, id) ensures ItemsOf(t.loot, id) == [] {
      if e.Tick? { TickEmptiesTheDead(r, s, e.frame, id); } else { OtherStepKeepsHands(r, s, e, id); }
    }
    hide TickServer, CombatRuns.Step, Match.Step, Loot.Step, ItemsOf, CombatRuns.Sound, Dead;
  }

  // ---------------------------------------------------------------------------------------------
  // Coins are what is carried
  // ---------------------------------------------------------------------------------------------

  function CoinsOf(rs: Match.Records, id: nat): int { if id in rs then rs[id].coins else 0 }

  ghost predicate CoinsShown(s: Server) { forall id :: CoinsOf(s.game.records, id) == WorthOf(s.loot, id) }

  lemma {:induction false} CombatNewsKeepsCoins(c: Match.Config, rs: Match.Records, news: seq<(nat, bool)>, id: nat)
    ensures CoinsOf(Match.SeeCombat(c, rs, news), id) == CoinsOf(rs, id)
  {
    if news != [] { CombatNewsKeepsCoins(c, rs, news[..|news| - 1], id); }
  }

  /** If all entries of id agree, that is what it has afterwards; if there are none, it has what it had. */
  lemma {:induction false} CoinsAsReported(c: Match.Config, rs: Match.Records, news: seq<(nat, int)>, id: nat, worth: int)
    requires forall n :: n in news && n.0 == id ==> n.1 == worth
    ensures CoinsOf(Match.SeeCoins(c, rs, news).0, id) == if (id, worth) in news then worth else CoinsOf(rs, id)
  {
    if news != [] {
      var n := |news| - 1;
      assert news == news[..n] + [news[n]];
      CoinsAsReported(c, rs, news[..n], id, worth);
    }
  }

  lemma InventoryReports(players: Loot.Holders, id: nat)
    ensures var worth := Get(players, id, Loot.NEWCOMER).totalValue;
            && (forall n :: n in Inventory(players) && n.0 == id ==> n.1 == worth)
            && ((id, worth) in Inventory(players) <==> id in players)
  {
    var ids := InOrder(players.Keys);
    var worth := Get(players, id, Loot.NEWCOMER).totalValue;
    if id in players {
      assert id in ids;
      var k :| 0 <= k < |ids| && ids[k] == id;
      assert Inventory(players)[k] == (id, worth);
    }
    if (id, worth) in Inventory(players) {
      var k :| 0 <= k < |ids| && Inventory(players)[k] == (id, worth);
      assert ids[k] in ids;
    }
  }

  lemma {:induction false} DeathsKeepCoins(c: Match.Config, rs: Match.Records, tick: nat, deaths: seq<Combat.Death>, victims: seq<nat>, id: nat)
    requires forall v :: v in victims ==> v in Combat.Victims(deaths)
    ensures CoinsOf(Match.ApplyDeaths(c, rs, tick, deaths, victims), id) == CoinsOf(rs, id)
  {
    hide Match.Credited;
    if victims != [] { DeathsKeepCoins(c, rs, tick, deaths, victims[..|victims| - 1], id); }
  }

  lemma GatheredCoins(c: Match.Config, rs: Match.Records, i: Match.Input, id: nat, worth: int)
    requires forall n :: n in i.coins && n.0 == id ==> n.1 == worth
    ensures CoinsOf(Match.Gather(c, rs, i).0, id) == if (id, worth) in i.coins then worth else CoinsOf(rs, id)
  {
    var arrived := Match.Arrive(c, rs, i.active);
    CombatNewsKeepsCoins(c, arrived, i.combat, id);
    CoinsAsReported(c, Match.SeeCombat(c, arrived, i.combat), i.coins, id, worth);
  }

  lemma OpeningKeepsCoins(c: Match.Config, s: Match.State, i: Match.Input, id: nat)
    ensures CoinsOf(Match.Opening(c, s, i).0.records, id) == CoinsOf(Match.Gather(c, s.records, i).0, id)
  {
    hide Match.Gather;
  }

  lemma ClosingKeepsRecords(s: Match.State, tick: nat, expired: bool)
    ensures Match.Closing(s, tick, expired).records == s.records
  {
    hide Match.Contenders;
  }

  /** Nothing but the news changes coins in a tick of the match. */
  lemma TickKeepsCoins(c: Match.Config, s: Match.State, i: Match.Input, id: nat)
    ensures CoinsOf(Match.Tick(c, s, i).0.records, id) == CoinsOf(Match.Gather(c, s.records, i).0, id)
  {
    hide Match.Gather, Match.Opening, Match.Closing;
    var (t, _, expired) := Match.Opening(c, s, i);
    OpeningKeepsCoins(c, s, i, id);
    if t.phase == Match.InMatch {
      DeathsKeepCoins(c, t.records, i.tick, i.deaths, InOrder(Combat.Victims(i.deaths)), id);
      ClosingKeepsRecords(t.(records := Match.Returns(Match.Fall(c, t.records, i.tick, i.deaths), i.tick)), i.tick, expired);
    }
  }

  /** Players of the loot are never forgotten. */
  lemma LootTickKeepsPlayers(h: Loot.Shop, s: Loot.State, i: Loot.Input, id: nat)
    requires LootRuns.Limited(h.config) && LootRuns.Orderly(h.config, s) && id in s.players
    ensures id in Loot.Tick(h.config, h.defs, s, i).0.players
  {
    hide LootRuns.Orderly, LootRuns.Goods, Loot.Stocked;
    LootRuns.StockedKeeps(h.config, h.defs, s, i);
    var w := Loot.Stocked(h.config, h.defs, s, i);
    PickupsKeepPlayers(h.config, Loot.Drain(w), Queues.Drained(w.s.queues));
  }

  lemma {:induction false} PickupsKeepPlayers(c: Loot.Config, w: Loot.Work, pickups: seq<Loot.Pickup>)
    ensures Loot.ResolveAll(c, w, pickups).s.players.Keys == w.s.players.Keys
  {
    hide Loot.InReach;
    if pickups != [] { PickupsKeepPlayers(c, w, pickups[..|pickups| - 1]); }
  }

  lemma TickShowsCoins(r: Rules, s: Server, f: Frame)
    requires Sane(r) && LootRuns.Orderly(r.shop.config, s.loot) && CoinsShown(s)
    ensures CoinsShown(TickServer(r, s, f))
  {
    hide LootRuns.Orderly, Match.Tick, Match.Gather, Fight, Inventory, Loot.Tick, RespawnAll, LootNews;
    var t := TickServer(r, s, f);
    forall id ensures CoinsOf(t.game.records, id) == WorthOf(t.loot, id) {
      InventoryReports(t.loot.players, id);
      GatheredCoins(r.game, s.game.records, News(r, s, f), id, WorthOf(t.loot, id));
      TickKeepsCoins(r.game, s.game, News(r, s, f), id);
      assert CoinsOf(s.game.records, id) == WorthOf(s.loot, id);
      if id in s.loot.players { LootTickKeepsPlayers(r.shop, s.loot, LootNews(r, s, f), id); }
    }
  }

  lemma OtherStepShowsCoins(r: Rules, s: Server, e: Event)
    requires !e.Tick? && CoinsShown(s)
    ensures CoinsShown(Step(r, s, e))
  {
    hide CombatRuns.Step, Loot.Verdict;
    var t := Step(r, s, e);
    forall id ensures CoinsOf(t.game.records, id) == WorthOf(t.loot, id) {
      assert CoinsOf(s.game.records, id) == WorthOf(s.loot, id);
    }
  }

  lemma LootStaysOrderly(r: Rules, s: Server, e: Event)
    requires Sane(r) && LootRuns.Orderly(r.shop.config, s.loot)
    ensures LootRuns.Orderly(r.shop.config, Step(r, s, e).loot)
  {
    hide LootRuns.Orderly, LootRuns.Goods, LootRuns.Ledger, CombatRuns.Step, Match.Step, Fight;
    match e {
      case Join(id) => LootRuns.StepKeeps(r.shop, s.loot, Loot.Join(id));
      case Leave(id) => LootRuns.StepKeeps(r.shop, s.loot, Loot.Leave(id));
      case Shoot(_) =>
      case Ask(p) => LootRuns.StepKeeps(r.shop, s.loot, Loot.Ask(p));
      case Tick(f) => LootRuns.TickKeeps(r.shop.config, r.shop.defs, s.loot, LootNews(r, s, f));
    }
  }

  lemma {:induction false} RunsShowCoins(r: Rules, events: seq<Event>)
    requires Sane(r)
    ensures LootRuns.Orderly(r.shop.config, Run(r, events).loot) && CoinsShown(Run(r, events))
  {
    if events != [] {
      hide Step, TickServer, CoinsShown, LootRuns.Orderly;
      var s, e := Run(r, events[..|events| - 1]), events[|events| - 1];
      RunsShowCoins(r, events[..|events| - 1]);
      LootStaysOrderly(r, s, e);
      StepShowsCoins(r, s, e);
    }
  }

  lemma StepShowsCoins(r: Rules, s: Server, e: Event)
    requires Sane(r) && LootRuns.Orderly(r.shop.config, s.loot) && CoinsShown(s)
    ensures CoinsShown(Step(r, s, e))
  {
    hide TickServer, CoinsShown, LootRuns.Orderly;
    if e.Tick? { TickShowsCoins(r, s, e.frame); } else { OtherStepShowsCoins(r, s, e); }
  }

  /** Over any run the coins on a player's record are the summed value of the treasures it carries. */
  lemma CoinsAreWhatIsCarried(r: Rules, events: seq<Event>, id: nat)
    requires Sane(r)
    ensures var s := Run(r, events); CoinsOf(s.game.records, id) == LootRuns.ValueOf(ItemsOf(s.loot, id))
  {
    RunsShowCoins(r, events);
    var s := Run(r, events);
    assert CoinsOf(s.game.records, id) == WorthOf(s.loot, id);
    hide Run;
  }

  /** Where everything is dropped at death, whoever is dead carries nothing and has no coins, in any phase. */
  lemma TheDeadCarryNothing(r: Rules, events: seq<Event>, id: nat)
    requires Sane(r) && r.shop.config.mode == Loot.All && Dead(Run(r, events), id)
    ensures ItemsOf(Run(r, events).loot, id) == [] && CoinsOf(Run(r, events).game.records, id) == 0
  {
    RunsEmptyTheDead(r, events);
    CoinsAreWhatIsCarried(r, events, id);
  }
}
