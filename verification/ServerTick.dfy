/**
 * Combat, loot and match as server/src/main.cpp wires them: joins and departures reach all three (lines 1118-1121,
 * 1414-1416 and 1435-1437), shots and pickups are let in only while a match is on (lines 1284-1296 and 1352-1360), and
 * a tick hands the combat's outcome to loot and match, the inventories to the match, and the match's respawns back to
 * the combat (lines 1464-1500). Nothing there ever resets a part.
 */
module ServerTick {
  import opened Prelude
  import opened Ids
  import Queues
  import Raycast
  import Combat
  import CombatInvariants
  import CombatRuns
  import Match
  import MatchRuns
  import Loot
  import LootRuns

  datatype Rules = Rules(combat: CombatRuns.Rules, game: Match.Config, shop: Loot.Shop)

  datatype Server = Server(combat: Combat.State, game: Match.State, loot: Loot.State)

  /** What a tick is given by the parts not wired here: positions, ray hits and active sessions. */
  datatype Frame = Frame(tick: nat, interval: int, moves: seq<(nat, (real, real))>, hits: seq<Option<Raycast.RayHit>>, active: seq<nat>)

  datatype Event = Join(id: nat) | Leave(id: nat) | Shoot(fire: Raycast.Fire) | Ask(pickup: Loot.Pickup) | Tick(frame: Frame)

  ghost predicate Sane(r: Rules) { CombatRuns.Sane(r.combat) && Match.Sane(r.game) && LootRuns.Limited(r.shop.config) }

  function Start(r: Rules): Server { Server(Combat.EMPTY, Match.Initial(r.game), Loot.EMPTY) }

  function PlaceAll(s: Combat.State, health: int, moves: seq<(nat, (real, real))>): Combat.State {
    if moves == [] then s
    else
      var last := moves[|moves| - 1];
      Combat.Place(PlaceAll(s, health, moves[..|moves| - 1]), health, last.0, last.1)
  }

  /** Every fighter and whether it lives, by ascending id. */
  ghost function Snapshot(f: Combat.Fighters): seq<(nat, bool)> {
    var ids := InOrder(f.Keys);
    seq(|ids|, k requires 0 <= k < |ids| => (assert ids[k] in ids; (ids[k], f[ids[k]].alive)))
  }

  function RespawnAll(s: Combat.State, health: int, ids: seq<nat>): Combat.State {
    if ids == [] then s else Combat.Respawn(RespawnAll(s, health, ids[..|ids| - 1]), health, ids[|ids| - 1])
  }

  /** The combat half of a tick: positions, then the combat tick. */
  ghost function Fight(r: Rules, s: Server, f: Frame): (Combat.State, Combat.Outcome) {
    Combat.CombatTick(r.combat.arsenal, PlaceAll(s.combat, r.combat.health, f.moves), f.tick, f.interval, f.hits)
  }

  /** The loot half: it sees who is alive after the fight, and who fell in it. */
  ghost function LootNews(r: Rules, s: Server, f: Frame): Loot.Input {
    var (fought, out) := Fight(r, s, f);
    Loot.Input(f.tick, f.moves, Snapshot(fought.fighters), out.deaths)
  }

  ghost function Looted(r: Rules, s: Server, f: Frame): Loot.State {
    Loot.Tick(r.shop.config, r.shop.defs, s.loot, LootNews(r, s, f)).0
  }

  /** The worth of every inventory, by ascending id. */
  ghost function Inventory(players: Loot.Holders): seq<(nat, int)> {
    var ids := InOrder(players.Keys);
    seq(|ids|, k requires 0 <= k < |ids| => (ids[k], Get(players, ids[k], Loot.NEWCOMER).totalValue))
  }

  /** What the match is told about both. */
  ghost function News(r: Rules, s: Server, f: Frame): Match.Input {
    var (fought, out) := Fight(r, s, f);
    Match.Input(f.tick, f.interval, f.active, Snapshot(fought.fighters), out.deaths, Inventory(Looted(r, s, f).players))
  }

  ghost function TickServer(r: Rules, s: Server, f: Frame): Server {
    var (game, report) := Match.Tick(r.game, s.game, News(r, s, f));
    Server(RespawnAll(Fight(r, s, f).0, r.combat.health, report.respawned), game, Looted(r, s, f))
  }

  ghost function Step(r: Rules, s: Server, e: Event): Server {
    match e
    case Join(id) =>
      Server(CombatRuns.Step(r.combat, s.combat, CombatRuns.Join(id)).0, Match.Step(r.game, s.game, Match.Join(id)).0,
             Loot.Step(r.shop, s.loot, Loot.Join(id)).0)
    case Leave(id) =>
      Server(CombatRuns.Step(r.combat, s.combat, CombatRuns.Leave(id)).0, Match.Step(r.game, s.game, Match.Leave(id)).0,
             Loot.Step(r.shop, s.loot, Loot.Leave(id)).0)
    case Shoot(fire) =>
      if s.game.phase == Match.InMatch then s.(combat := CombatRuns.Step(r.combat, s.combat, CombatRuns.Shoot(fire)).0) else s
    case Ask(p) =>
      if s.game.phase == Match.InMatch then s.(loot := Loot.Step(r.shop, s.loot, Loot.Ask(p)).0) else s
    case Tick(f) => TickServer(r, s, f)
  }

  ghost function Run(r: Rules, events: seq<Event>): Server {
    if events == [] then Start(r) else Step(r, Run(r, events[..|events| - 1]), events[|events| - 1])
  }

  // ---------------------------------------------------------------------------------------------
  // Who is dead, and what the match knows of it
  // ---------------------------------------------------------------------------------------------

  predicate Dead(s: Server, id: nat) { id in s.combat.fighters && !s.combat.fighters[id].alive }

  predicate Booked(rs: Match.Records, id: nat) { id in rs && rs[id].pending.Some? }

  predicate Out(rs: Match.Records, id: nat) { id in rs && rs[id].eliminated }

  /** Out of the match, or with a respawn booked. */
  predicate SeenTo(rs: Match.Records, id: nat) { Booked(rs, id) || Out(rs, id) }

  ghost predicate Peaceful(s: Combat.State) {
    s.pending == [] && s.queues == map[] && forall id :: id in s.fighters ==> s.fighters[id].alive
  }

  ghost predicate Quiet(rs: Match.Records) { forall id :: !SeenTo(rs, id) }

  /** In the lobby nothing flies and nobody is dead; during a match exactly the dead who are not out are to return. */
  ghost predicate Wired(r: Rules, s: Server) {
    && CombatRuns.Sound(r.combat, s.combat)
    && (s.game.phase == Match.PreMatch ==> Peaceful(s.combat) && Quiet(s.game.records))
    && (s.game.phase == Match.InMatch ==> forall id :: Booked(s.game.records, id) <==> Dead(s, id) && !Out(s.game.records, id))
  }

  // ---------------------------------------------------------------------------------------------
  // The combat half
  // ---------------------------------------------------------------------------------------------

  lemma {:induction false} PlacingKeeps(r: CombatRuns.Rules, s: Combat.State, moves: seq<(nat, (real, real))>)
    requires CombatRuns.Sane(r) && CombatRuns.Sound(r, s)
    ensures var t := PlaceAll(s, r.health, moves);
            && CombatRuns.Sound(r, t)
            && forall id :: id in t.fighters && !t.fighters[id].alive <==> id in s.fighters && !s.fighters[id].alive
  {
    if moves != [] {
      var n := |moves| - 1;
      PlacingKeeps(r, s, moves[..n]);
      CombatRuns.StepIsSound(r, PlaceAll(s, r.health, moves[..n]), CombatRuns.Move(moves[n].0, moves[n].1));
    }
  }

  /** After the fight the dead are those before it and those it lists. */
  lemma FightListsTheFallen(r: Rules, s: Server, f: Frame)
    requires Sane(r) && CombatRuns.Sound(r.combat, s.combat)
    ensures var (t, out) := Fight(r, s, f);
            && CombatRuns.Sound(r.combat, t)
            && (forall id :: id in t.fighters && !t.fighters[id].alive <==> Dead(s, id) || id in Combat.Victims(out.deaths))
            && (forall id :: id in Combat.Victims(out.deaths) ==> !Dead(s, id))
  {
    hide PlaceAll, Combat.CombatTick, CombatRuns.Sound;
    var placed := PlaceAll(s.combat, r.combat.health, f.moves);
    var (t, out) := Fight(r, s, f);
    PlacingKeeps(r.combat, s.combat, f.moves);
    CombatRuns.StepIsSound(r.combat, placed, CombatRuns.Tick(f.tick, f.interval, f.hits));
    forall id
      ensures id in t.fighters && !t.fighters[id].alive <==> Dead(s, id) || id in Combat.Victims(out.deaths)
      ensures id in Combat.Victims(out.deaths) ==> !Dead(s, id)
    {
      CombatRuns.FallenAreListed(r.combat, placed, f.tick, f.interval, f.hits, id);
      VictimsAreDeaths(out, id);
    }
  }

  lemma VictimsAreDeaths(out: Combat.Outcome, id: nat)
    ensures id in Combat.Victims(out.deaths) <==> CombatRuns.Dies(out, id)
  {
    if id in Combat.Victims(out.deaths) {
      var d :| d in out.deaths && d.victim == id;
      var i :| 0 <= i < |out.deaths| && out.deaths[i] == d;
    }
  }

  lemma {:induction false} PlacingKeepsPeace(s: Combat.State, health: int, moves: seq<(nat, (real, real))>)
    requires Peaceful(s)
    ensures Peaceful(PlaceAll(s, health, moves))
  {
    if moves != [] { PlacingKeepsPeace(s, health, moves[..|moves| - 1]); }
  }

  lemma NothingIsDrained()
    ensures Queues.Drained<Raycast.Fire>(map[]) == []
  {
    AscendingUnique(InOrder({}), []);
  }

  /** Where nothing is queued and nothing flies, nobody falls. */
  lemma PeaceLasts(r: Rules, s: Server, f: Frame)
    requires Peaceful(s.combat)
    ensures Peaceful(Fight(r, s, f).0) && Fight(r, s, f).1.deaths == []
  {
    PlacingKeepsPeace(s.combat, r.combat.health, f.moves);
    NothingIsDrained();
    hide PlaceAll;
  }

  lemma {:induction false} RespawningRevives(r: CombatRuns.Rules, s: Combat.State, ids: seq<nat>)
    requires CombatRuns.Sane(r) && CombatRuns.Sound(r, s)
    ensures var t := RespawnAll(s, r.health, ids);
            && CombatRuns.Sound(r, t)
            && forall id :: id in t.fighters && !t.fighters[id].alive <==> id in s.fighters && !s.fighters[id].alive && id !in ids
  {
    if ids != [] {
      var n := |ids| - 1;
      assert ids == ids[..n] + [ids[n]];
      RespawningRevives(r, s, ids[..n]);
      CombatRuns.StepIsSound(r, RespawnAll(s, r.health, ids[..n]), CombatRuns.Revive(ids[n]));
    }
  }

  // ---------------------------------------------------------------------------------------------
  // The match half
  // ---------------------------------------------------------------------------------------------

  lemma {:induction false} NewsIsOnRecord(c: Match.Config, rs: Match.Records, news: seq<(nat, bool)>, id: nat)
    ensures id in rs ==> id in Match.SeeCombat(c, rs, news)
    ensures (exists k :: 0 <= k < |news| && news[k].0 == id) ==> id in Match.SeeCombat(c, rs, news)
  {
    if news != [] {
      var n := |news| - 1;
      NewsIsOnRecord(c, rs, news[..n], id);
      if k :| 0 <= k < |news| && news[k].0 == id {
        if k < n { assert news[..n][k].0 == id; }
      }
    }
  }

  lemma GatheredOnRecord(c: Match.Config, rs: Match.Records, i: Match.Input, id: nat)
    requires exists k :: 0 <= k < |i.combat| && i.combat[k].0 == id
    ensures id in Match.Gather(c, rs, i).0
  {
    var arrived := Match.Arrive(c, rs, i.active);
    NewsIsOnRecord(c, arrived, i.combat, id);
    MatchRuns.SeeCoinsIsNews(c, Match.SeeCombat(c, arrived, i.combat), i.coins);
  }

  lemma SnapshotLists(f: Combat.Fighters, id: nat)
    requires id in f
    ensures exists k :: 0 <= k < |Snapshot(f)| && Snapshot(f)[k].0 == id
  {
    var ids := InOrder(f.Keys);
    assert id in ids;
    var k :| 0 <= k < |ids| && ids[k] == id;
    assert Snapshot(f)[k].0 == id;
  }

  /** How the match stands on p before it handles the deaths. */
  lemma OpeningStandsOn(c: Match.Config, s: Match.State, i: Match.Input, p: nat)
    requires Match.Opening(c, s, i).0.phase == Match.InMatch
    ensures var t := Match.Opening(c, s, i).0;
            && (p in Match.Gather(c, s.records, i).0 ==> p in t.records)
            && (s.phase == Match.InMatch ==> (Booked(t.records, p) <==> Booked(s.records, p)) && (Out(t.records, p) <==> Out(s.records, p)))
            && (s.phase == Match.PreMatch ==> !SeenTo(t.records, p))
  {
    MatchRuns.GatherIsNews(c, s.records, i);
    var rs := Match.Gather(c, s.records, i).0;
    assert p in rs ==> MatchRuns.SameStanding(Get(s.records, p, Match.Newcomer(c)), rs[p]);
    hide Match.Gather;
  }

  /** What the deaths make of p: a victim is out or booked for later; anybody else stands as before. */
  lemma DeathsStandOn(c: Match.Config, rs: Match.Records, tick: nat, deaths: seq<Combat.Death>, p: nat)
    requires Match.Sane(c) && (p in Combat.Victims(deaths) ==> p in rs)
    ensures var t := Match.Fall(c, rs, tick, deaths);
            && (p in Combat.Victims(deaths) ==> p in t && !Match.IsDue(t[p], tick) && (Booked(t, p) <==> !Out(t, p)))
            && (p !in Combat.Victims(deaths) ==> (Booked(t, p) <==> Booked(rs, p)) && (Out(t, p) <==> Out(rs, p)))
  {
    if p in rs {
      MatchRuns.FallDecides(c, rs, tick, deaths, p);
      hide Match.Fall;
    } else {
      MatchRuns.StrangersAreNewcomers(c, rs, tick, deaths, InOrder(Combat.Victims(deaths)), p);
    }
  }

  /** What deaths and respawns together make of p, if nobody who is out was booked. */
  lemma FightStandsOn(c: Match.Config, s: Match.State, i: Match.Input, p: nat)
    requires Match.Sane(c) && Match.Opening(c, s, i).0.phase == Match.InMatch
    requires p in Combat.Victims(i.deaths) ==> p in Match.Gather(c, s.records, i).0
    requires var before := Match.Opening(c, s, i).0.records; !(Booked(before, p) && Out(before, p))
    ensures var (t, out) := Match.Tick(c, s, i);
            var before := Match.Opening(c, s, i).0.records;
            var victim, back := p in Combat.Victims(i.deaths), p in out.respawned;
            && (victim ==> !back && (Booked(t.records, p) <==> !Out(t.records, p)))
            && (back ==> Booked(before, p) && !Booked(t.records, p))
            && (!victim ==> (Out(t.records, p) <==> Out(before, p)))
            && (!victim && !back ==> (Booked(t.records, p) <==> Booked(before, p)))
  {
    OpeningStandsOn(c, s, i, p);
    var before := Match.Opening(c, s, i).0.records;
    DeathsStandOn(c, before, i.tick, i.deaths, p);
    ReturnsStandOn(c, s, i, p);
    hide Match.Gather, Match.Fall, Match.Tick, Match.Opening;
  }

  lemma ReturnsStandOn(c: Match.Config, s: Match.State, i: Match.Input, p: nat)
    requires Match.Opening(c, s, i).0.phase == Match.InMatch
    ensures var (t, out) := Match.Tick(c, s, i);
            var rs := Match.Fall(c, Match.Opening(c, s, i).0.records, i.tick, i.deaths);
            && (p in t.records <==> p in rs)
            && (p in rs ==> t.records[p] == Match.Returned(rs[p], i.tick))
            && (p in out.respawned <==> p in rs && Match.IsDue(rs[p], i.tick) && !rs[p].eliminated)
  {
    hide Match.Fall, Match.Opening;
  }

  lemma QuietTick(c: Match.Config, s: Match.State, i: Match.Input)
    requires Match.Opening(c, s, i).0.phase != Match.InMatch
    ensures Match.Tick(c, s, i).0 == Match.Opening(c, s, i).0 && Match.Tick(c, s, i).1.respawned == []
    ensures Match.Opening(c, s, i).0.phase == s.phase != Match.InMatch
    ensures forall p :: SeenTo(Match.Tick(c, s, i).0.records, p) <==> SeenTo(s.records, p)
    ensures forall p :: Out(Match.Tick(c, s, i).0.records, p) <==> Out(s.records, p)
  {
    MatchRuns.GatherIsNews(c, s.records, i);
    var rs := Match.Gather(c, s.records, i).0;
    forall p ensures SeenTo(rs, p) <==> SeenTo(s.records, p)
             ensures Out(rs, p) <==> Out(s.records, p) {
      assert p in rs ==> MatchRuns.SameStanding(Get(s.records, p, Match.Newcomer(c)), rs[p]);
    }
    hide Match.Gather;
  }

  // ---------------------------------------------------------------------------------------------
  // Combat and match together
  // ---------------------------------------------------------------------------------------------

  /** A tick whose deaths the match handles: it is under way by then, be it that it just opened or is about to end. */
  ghost predicate Counts(r: Rules, s: Server, f: Frame) { Match.Opening(r.game, s.game, News(r, s, f)).0.phase == Match.InMatch }

  /** A tick counts only while no match is over, and leaves the lobby behind. */
  lemma CountingPhases(r: Rules, s: Server, f: Frame)
    requires Counts(r, s, f)
    ensures s.game.phase != Match.PostMatch && TickServer(r, s, f).game.phase != Match.PreMatch
  {
    hide Match.Gather, Match.Fall, Match.Returns, Fight, Looted;
  }

  lemma FallenAreOnRecord(r: Rules, s: Server, f: Frame, id: nat)
    requires id in Fight(r, s, f).0.fighters
    ensures id in Match.Gather(r.game, s.game.records, News(r, s, f)).0
  {
    hide Fight, Looted, Snapshot, Match.Gather;
    SnapshotLists(Fight(r, s, f).0.fighters, id);
    GatheredOnRecord(r.game, s.game.records, News(r, s, f), id);
  }

  lemma UncountedTickKeepsWired(r: Rules, s: Server, f: Frame)
    requires Sane(r) && Wired(r, s) && !Counts(r, s, f)
    ensures Wired(r, TickServer(r, s, f))
  {
    hide Match.Tick, Match.Opening, Fight, Looted, CombatRuns.Sound;
    FightListsTheFallen(r, s, f);
    QuietTick(r.game, s.game, News(r, s, f));
    if s.game.phase == Match.PreMatch {
      hide Peaceful;
      PeaceLasts(r, s, f);
    }
  }

  /** One player through a tick that counts. */
  lemma CountedTickOnOne(r: Rules, s: Server, f: Frame, id: nat)
    requires Sane(r) && Wired(r, s) && Counts(r, s, f)
    ensures var t := TickServer(r, s, f); Booked(t.game.records, id) <==> Dead(t, id) && !Out(t.game.records, id)
    ensures Dead(s, id) && Out(s.game.records, id) ==> var t := TickServer(r, s, f); Dead(t, id) && Out(t.game.records, id)
  {
    hide Match.Tick, Match.Opening, Match.Gather, Fight, Looted, RespawnAll, Snapshot, CombatRuns.Sound;
    var fought := Fight(r, s, f).0;
    var i := News(r, s, f);
    CountingPhases(r, s, f);
    FightListsTheFallen(r, s, f);
    RespawningRevives(r.combat, fought, Match.Tick(r.game, s.game, i).1.respawned);
    if id in Combat.Victims(i.deaths) { FallenAreOnRecord(r, s, f, id); }
    OpeningStandsOn(r.game, s.game, i, id);
    FightStandsOn(r.game, s.game, i, id);
  }

  lemma CountedTickKeepsWired(r: Rules, s: Server, f: Frame)
    requires Sane(r) && Wired(r, s) && Counts(r, s, f)
    ensures Wired(r, TickServer(r, s, f))
  {
    var t := TickServer(r, s, f);
    FightListsTheFallen(r, s, f);
    RespawningRevives(r.combat, Fight(r, s, f).0, Match.Tick(r.game, s.game, News(r, s, f)).1.respawned);
    CountingPhases(r, s, f);
    assert CombatRuns.Sound(r.combat, t.combat);
    forall id ensures Booked(t.game.records, id) <==> Dead(t, id) && !Out(t.game.records, id) { CountedTickOnOne(r, s, f, id); }
    hide TickServer, Match.Tick, CombatRuns.Sound;
  }

  lemma JoinKeepsWired(r: Rules, s: Server, id: nat)
    requires Sane(r) && Wired(r, s)
    ensures Wired(r, Step(r, s, Join(id)))
  {
    hide CombatRuns.Sound, Loot.Step;
    CombatRuns.StepIsSound(r.combat, s.combat, CombatRuns.Join(id));
    var t := Step(r, s, Join(id));
    forall p ensures Dead(t, p) <==> Dead(s, p)
             ensures SeenTo(t.game.records, p) <==> SeenTo(s.game.records, p)
             ensures Booked(t.game.records, p) <==> Booked(s.game.records, p)
             ensures Out(t.game.records, p) <==> Out(s.game.records, p) {
    }
  }

  lemma LeaveKeepsWired(r: Rules, s: Server, id: nat)
    requires Sane(r) && Wired(r, s)
    ensures Wired(r, Step(r, s, Leave(id)))
  {
    hide CombatRuns.Sound, Loot.Step;
    CombatRuns.StepIsSound(r.combat, s.combat, CombatRuns.Leave(id));
    var t := Step(r, s, Leave(id));
    forall p ensures Dead(t, p) <==> Dead(s, p) && p != id
             ensures SeenTo(t.game.records, p) ==> SeenTo(s.game.records, p)
             ensures Booked(t.game.records, p) <==> Booked(s.game.records, p) && p != id
             ensures Out(t.game.records, p) <==> Out(s.game.records, p) {
    }
    assert Peaceful(s.combat) ==> Peaceful(t.combat);
  }

  lemma QueuedShotFellsNobody(r: CombatRuns.Rules, s: Combat.State, fire: Raycast.Fire, id: nat)
    ensures var t := CombatRuns.Step(r, s, CombatRuns.Shoot(fire)).0;
            id in t.fighters && !t.fighters[id].alive <==> id in s.fighters && !s.fighters[id].alive
  {
    hide Combat.Verdict;
  }

  lemma ShootKeepsWired(r: Rules, s: Server, fire: Raycast.Fire)
    requires Sane(r) && Wired(r, s)
    ensures Wired(r, Step(r, s, Shoot(fire)))
  {
    hide CombatRuns.Sound, CombatRuns.Step;
    if s.game.phase == Match.InMatch {
      CombatRuns.StepIsSound(r.combat, s.combat, CombatRuns.Shoot(fire));
      forall id ensures Dead(Step(r, s, Shoot(fire)), id) <==> Dead(s, id) {
        QueuedShotFellsNobody(r.combat, s.combat, fire, id);
      }
    }
  }

  lemma StepKeepsWired(r: Rules, s: Server, e: Event)
    requires Sane(r) && Wired(r, s)
    ensures Wired(r, Step(r, s, e))
  {
    match e {
      case Join(id) => hide Wired; JoinKeepsWired(r, s, id);
      case Leave(id) => hide Wired; LeaveKeepsWired(r, s, id);
      case Shoot(fire) => hide Wired; ShootKeepsWired(r, s, fire);
      case Ask(p) => hide CombatRuns.Sound, Loot.Step;
      case Tick(f) =>
        hide Wired, TickServer, Counts;
        if Counts(r, s, f) { CountedTickKeepsWired(r, s, f); } else { UncountedTickKeepsWired(r, s, f); }
    }
  }

  lemma {:induction false} RunsAreWired(r: Rules, events: seq<Event>)
    requires Sane(r)
    ensures Wired(r, Run(r, events))
  {
    if events == [] {
      CombatRuns.EmptyIsSound(r.combat);
    } else {
      hide Wired, Step;
      RunsAreWired(r, events[..|events| - 1]);
      StepKeepsWired(r, Run(r, events[..|events| - 1]), events[|events| - 1]);
    }
  }

  /** Nobody is dead before the match. */
  lemma NobodyDiesInTheLobby(r: Rules, events: seq<Event>, id: nat)
    requires Sane(r) && Run(r, events).game.phase == Match.PreMatch
    ensures !Dead(Run(r, events), id) && !SeenTo(Run(r, events).game.records, id)
  {
    RunsAreWired(r, events);
  }

  /**
   * During a match whoever is dead in combat is out or has a respawn booked, and a respawn is booked for nobody else:
   * exactly for those who are dead and not out.
   */
  lemma BookedAreTheDeadNotOut(r: Rules, events: seq<Event>, id: nat)
    requires Sane(r) && Run(r, events).game.phase == Match.InMatch
    ensures var s := Run(r, events);
            && (Dead(s, id) ==> SeenTo(s.game.records, id))
            && (Booked(s.game.records, id) <==> Dead(s, id) && !Out(s.game.records, id))
  {
    RunsAreWired(r, events);
  }

  /** So the tick that opens a match ends it exactly when one player is connected, who wins. */
  lemma OpeningTickNeedsTwo(r: Rules, events: seq<Event>, f: Frame)
    requires Sane(r) && Run(r, events).game.phase == Match.PreMatch && Run(r, events).game.preTicks <= 1
    ensures var s := Run(r, events);
            var here, t := Match.Connected(Match.Gather(r.game, s.game.records, News(r, s, f)).0), TickServer(r, s, f).game;
            |here| >= r.game.minPlayers ==>
              (t.phase == Match.PostMatch <==> |here| == 1) && (t.phase == Match.PostMatch ==> t.winner == Some(Least(here)))
  {
    hide Run, Match.Tick, Match.Gather, Fight, Looted, CombatRuns.Sound;
    var s := Run(r, events);
    RunsAreWired(r, events);
    PeaceLasts(r, s, f);
    if |Match.Connected(Match.Gather(r.game, s.game.records, News(r, s, f)).0)| >= r.game.minPlayers {
      MatchRuns.LonePlayerWinsAtOnce(r.game, s.game, News(r, s, f));
    }
  }

  lemma OutStayDeadOnce(r: Rules, s: Server, e: Event, id: nat)
    requires Sane(r) && Wired(r, s) && Dead(s, id) && Out(s.game.records, id) && e != Leave(id)
    ensures Dead(Step(r, s, e), id) && Out(Step(r, s, e).game.records, id)
  {
    match e {
      case Join(other) => hide CombatRuns.Sound, Loot.Step;
      case Leave(other) => hide CombatRuns.Sound, Loot.Step;
      case Shoot(fire) =>
        hide CombatRuns.Step, CombatRuns.Sound;
        QueuedShotFellsNobody(r.combat, s.combat, fire, id);
      case Ask(p) => hide CombatRuns.Sound, Loot.Step;
      case Tick(f) =>
        if Counts(r, s, f) {
          hide TickServer, Counts, Wired;
          CountedTickOnOne(r, s, f, id);
        } else {
          hide Match.Tick, Match.Opening, Fight, Looted, CombatRuns.Sound;
          FightListsTheFallen(r, s, f);
          QuietTick(r.game, s.game, News(r, s, f));
        }
    }
  }

  lemma RunExtends(r: Rules, events: seq<Event>, e: Event)
    ensures Run(r, events + [e]) == Step(r, Run(r, events), e)
  {
    assert (events + [e])[..|events + [e]| - 1] == events;
  }

  lemma LastIsSplitOff<T>(start: seq<T>, more: seq<T>)
    requires more != []
    ensures var before, last := more[..|more| - 1], more[|more| - 1];
            start + more == start + before + [last] && last in more && forall e :: e in before ==> e in more
  {
  }

  /** Who is dead and out stays so, during the match and after it, for as long as it does not leave. */
  lemma {:induction false} OutStayDead(r: Rules, events: seq<Event>, more: seq<Event>, id: nat)
    requires Sane(r) && Dead(Run(r, events), id) && Out(Run(r, events).game.records, id)
    requires forall e :: e in more ==> e != Leave(id)
    ensures Dead(Run(r, events + more), id) && Out(Run(r, events + more).game.records, id)
  {
    if more == [] {
      assert events + more == events;
    } else {
      hide Wired, Step, Run, Dead, Out;
      var before, last := more[..|more| - 1], more[|more| - 1];
      LastIsSplitOff(events, more);
      RunExtends(r, events + before, last);
      OutStayDead(r, events, before, id);
      RunsAreWired(r, events + before);
      OutStayDeadOnce(r, Run(r, events + before), last, id);
    }
  }
}
