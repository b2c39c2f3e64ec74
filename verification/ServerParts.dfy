/**
 * Every run of the wired server is, seen from each of its parts, a run of that part; so whatever is proved of all runs
 * of combat, loot or match holds in the wired server.
 */
module ServerParts {
  import opened Prelude
  import opened ServerTick
  import Combat
  import CombatRuns
  import Match
  import MatchRuns
  import Loot
  import LootRuns

  // ---------------------------------------------------------------------------------------------
  // What each part is told
  // ---------------------------------------------------------------------------------------------

  function Moves(moves: seq<(nat, (real, real))>): seq<CombatRuns.Event> {
    seq(|moves|, k requires 0 <= k < |moves| => CombatRuns.Move(moves[k].0, moves[k].1))
  }

  function Revivals(ids: seq<nat>): seq<CombatRuns.Event> {
    seq(|ids|, k requires 0 <= k < |ids| => CombatRuns.Revive(ids[k]))
  }

  ghost function ToCombat(r: Rules, s: Server, e: Event): seq<CombatRuns.Event> {
    match e
    case Join(id) => [CombatRuns.Join(id)]
    case Leave(id) => [CombatRuns.Leave(id)]
    case Shoot(fire) => if s.game.phase == Match.InMatch then [CombatRuns.Shoot(fire)] else []
    case Ask(_) => []
    case Tick(f) =>
      Moves(f.moves) + [CombatRuns.Tick(f.tick, f.interval, f.hits)] + Revivals(Match.Tick(r.game, s.game, News(r, s, f)).1.respawned)
  }

  ghost function ToMatch(r: Rules, s: Server, e: Event): seq<Match.Event> {
    match e
    case Join(id) => [Match.Join(id)]
    case Leave(id) => [Match.Leave(id)]
    case Shoot(_) => []
    case Ask(_) => []
    case Tick(f) => [Match.TickEvent(News(r, s, f))]
  }

  ghost function ToLoot(r: Rules, s: Server, e: Event): seq<Loot.Event> {
    match e
    case Join(id) => [Loot.Join(id)]
    case Leave(id) => [Loot.Leave(id)]
    case Shoot(_) => []
    case Ask(p) => if s.game.phase == Match.InMatch then [Loot.Ask(p)] else []
    case Tick(f) => [Loot.TickEvent(LootNews(r, s, f))]
  }

  /** What happens to the parts over a whole run. */
  datatype Traces = Traces(combat: seq<CombatRuns.Event>, game: seq<Match.Event>, loot: seq<Loot.Event>)

  ghost function TracesOf(r: Rules, events: seq<Event>): Traces {
    if events == [] then Traces([], [], [])
    else
      var before, s, e := TracesOf(r, events[..|events| - 1]), Run(r, events[..|events| - 1]), events[|events| - 1];
      Traces(before.combat + ToCombat(r, s, e), before.game + ToMatch(r, s, e), before.loot + ToLoot(r, s, e))
  }

  // ---------------------------------------------------------------------------------------------
  // Runs in two pieces
  // ---------------------------------------------------------------------------------------------

  lemma {:induction false} CombatSplits(r: CombatRuns.Rules, s: Combat.State, a: seq<CombatRuns.Event>, b: seq<CombatRuns.Event>)
    ensures CombatRuns.Run(r, s, a + b) == CombatRuns.Run(r, CombatRuns.Run(r, s, a), b)
    decreases a
  {
    hide CombatRuns.Step;
    if a == [] {
      assert a + b == b;
    } else {
      assert (a + b)[1..] == a[1..] + b;
      CombatSplits(r, CombatRuns.Step(r, s, a[0]).0, a[1..], b);
    }
  }

  lemma {:induction false} MatchSplits(c: Match.Config, s: Match.State, a: seq<Match.Event>, b: seq<Match.Event>)
    ensures Match.Run(c, s, a + b) == Match.Run(c, Match.Run(c, s, a), b)
    decreases a
  {
    hide Match.Step;
    if a == [] {
      assert a + b == b;
    } else {
      assert (a + b)[1..] == a[1..] + b;
      MatchSplits(c, Match.Step(c, s, a[0]).0, a[1..], b);
    }
  }

  lemma {:induction false} LootSplits(h: Loot.Shop, s: Loot.State, a: seq<Loot.Event>, b: seq<Loot.Event>)
    ensures Loot.Run(h, s, a + b) == Loot.Run(h, Loot.Run(h, s, a), b)
    decreases a
  {
    hide Loot.Step;
    if a == [] {
      assert a + b == b;
    } else {
      assert (a + b)[1..] == a[1..] + b;
      LootSplits(h, Loot.Step(h, s, a[0]).0, a[1..], b);
    }
  }

  lemma OneCombatEvent(r: CombatRuns.Rules, s: Combat.State, e: CombatRuns.Event)
    ensures CombatRuns.Run(r, s, [e]) == CombatRuns.Step(r, s, e).0
  {
    assert [e][1..] == [];
    assert CombatRuns.Run(r, CombatRuns.Step(r, s, e).0, []) == CombatRuns.Step(r, s, e).0;
    hide CombatRuns.Step;
  }

  lemma {:induction false} MovesPlaceAll(r: CombatRuns.Rules, s: Combat.State, moves: seq<(nat, (real, real))>)
    ensures CombatRuns.Run(r, s, Moves(moves)) == PlaceAll(s, r.health, moves)
  {
    if moves == [] {
      assert Moves(moves) == [];
    } else {
      var before, last := moves[..|moves| - 1], moves[|moves| - 1];
      MovesPlaceAll(r, s, before);
      assert Moves(moves) == Moves(before) + [CombatRuns.Move(last.0, last.1)];
      CombatSplits(r, s, Moves(before), [CombatRuns.Move(last.0, last.1)]);
      OneCombatEvent(r, PlaceAll(s, r.health, before), CombatRuns.Move(last.0, last.1));
    }
  }

  lemma {:induction false} RevivalsRespawnAll(r: CombatRuns.Rules, s: Combat.State, ids: seq<nat>)
    ensures CombatRuns.Run(r, s, Revivals(ids)) == RespawnAll(s, r.health, ids)
  {
    if ids == [] {
      assert Revivals(ids) == [];
    } else {
      var before, last := ids[..|ids| - 1], ids[|ids| - 1];
      RevivalsRespawnAll(r, s, before);
      assert Revivals(ids) == Revivals(before) + [CombatRuns.Revive(last)];
      CombatSplits(r, s, Revivals(before), [CombatRuns.Revive(last)]);
      OneCombatEvent(r, RespawnAll(s, r.health, before), CombatRuns.Revive(last));
    }
  }

  // ---------------------------------------------------------------------------------------------
  // The parts of a run
  // ---------------------------------------------------------------------------------------------

  lemma CombatPart(r: Rules, s: Server, e: Event)
    ensures Step(r, s, e).combat == CombatRuns.Run(r.combat, s.combat, ToCombat(r, s, e))
  {
    hide CombatRuns.Run, Match.Tick, Match.Step, Loot.Step, Looted;
    match e {
      case Join(id) => OneCombatEvent(r.combat, s.combat, CombatRuns.Join(id));
      case Leave(id) => OneCombatEvent(r.combat, s.combat, CombatRuns.Leave(id));
      case Shoot(fire) =>
        OneCombatEvent(r.combat, s.combat, CombatRuns.Shoot(fire));
        NoCombatEvent(r.combat, s.combat);
      case Ask(_) => NoCombatEvent(r.combat, s.combat);
      case Tick(f) => CombatTickPart(r, s, f);
    }
  }

  lemma NoCombatEvent(r: CombatRuns.Rules, s: Combat.State)
    ensures CombatRuns.Run(r, s, []) == s
  {
  }

  lemma CombatTickPart(r: Rules, s: Server, f: Frame)
    ensures TickServer(r, s, f).combat == CombatRuns.Run(r.combat, s.combat, ToCombat(r, s, Tick(f)))
  {
    hide CombatRuns.Run, PlaceAll, RespawnAll, Combat.CombatTick, Match.Tick, News;
    var back := Match.Tick(r.game, s.game, News(r, s, f)).1.respawned;
    var placed := PlaceAll(s.combat, r.combat.health, f.moves);
    var tick := CombatRuns.Tick(f.tick, f.interval, f.hits);
    MovesPlaceAll(r.combat, s.combat, f.moves);
    OneCombatEvent(r.combat, placed, tick);
    CombatSplits(r.combat, s.combat, Moves(f.moves), [tick]);
    RevivalsRespawnAll(r.combat, Fight(r, s, f).0, back);
    CombatSplits(r.combat, s.combat, Moves(f.moves) + [tick], Revivals(back));
  }

  lemma MatchPart(r: Rules, s: Server, e: Event)
    ensures Step(r, s, e).game == Match.Run(r.game, s.game, ToMatch(r, s, e))
  {
    hide CombatRuns.Step, Match.Tick, Loot.Step, Looted, News;
    if ToMatch(r, s, e) != [] {
      var only := ToMatch(r, s, e)[0];
      assert ToMatch(r, s, e)[1..] == [];
      assert Match.Run(r.game, Match.Step(r.game, s.game, only).0, []) == Match.Step(r.game, s.game, only).0;
    }
  }

  lemma LootPart(r: Rules, s: Server, e: Event)
    ensures Step(r, s, e).loot == Loot.Run(r.shop, s.loot, ToLoot(r, s, e))
  {
    hide CombatRuns.Step, Match.Tick, Loot.Tick, LootNews, Match.Step;
    if ToLoot(r, s, e) != [] {
      var only := ToLoot(r, s, e)[0];
      assert ToLoot(r, s, e)[1..] == [];
      assert Loot.Run(r.shop, Loot.Step(r.shop, s.loot, only).0, []) == Loot.Step(r.shop, s.loot, only).0;
    }
  }

  lemma {:induction false} CombatOfARun(r: Rules, events: seq<Event>)
    ensures Run(r, events).combat == CombatRuns.Run(r.combat, Combat.EMPTY, TracesOf(r, events).combat)
  {
    hide Step, ToCombat, ToMatch, ToLoot;
    if events != [] {
      hide CombatRuns.Run;
      var before, e := events[..|events| - 1], events[|events| - 1];
      CombatOfARun(r, before);
      CombatPart(r, Run(r, before), e);
      CombatSplits(r.combat, Combat.EMPTY, TracesOf(r, before).combat, ToCombat(r, Run(r, before), e));
    }
  }

  lemma {:induction false} MatchOfARun(r: Rules, events: seq<Event>)
    ensures Run(r, events).game == Match.Run(r.game, Match.Initial(r.game), TracesOf(r, events).game)
  {
    hide Step, ToCombat, ToMatch, ToLoot;
    if events != [] {
      hide Match.Run;
      var before, e := events[..|events| - 1], events[|events| - 1];
      MatchOfARun(r, before);
      MatchPart(r, Run(r, before), e);
      MatchSplits(r.game, Match.Initial(r.game), TracesOf(r, before).game, ToMatch(r, Run(r, before), e));
    }
  }

  lemma {:induction false} LootOfARun(r: Rules, events: seq<Event>)
    ensures Run(r, events).loot == Loot.Run(r.shop, Loot.EMPTY, TracesOf(r, events).loot)
  {
    hide Step, ToCombat, ToMatch, ToLoot;
    if events != [] {
      hide Loot.Run;
      var before, e := events[..|events| - 1], events[|events| - 1];
      LootOfARun(r, before);
      LootPart(r, Run(r, before), e);
      LootSplits(r.shop, Loot.EMPTY, TracesOf(r, before).loot, ToLoot(r, Run(r, before), e));
    }
  }

  ghost predicate NeverReset(t: Traces) { MatchRuns.NoReset(t.game) && forall e :: e in t.loot ==> !e.Reset? }

  lemma NothingResets(r: Rules, s: Server, e: Event)
    ensures NeverReset(Traces([], ToMatch(r, s, e), ToLoot(r, s, e)))
  {
    hide News, LootNews;
  }

  lemma {:induction false} TracesNeverReset(r: Rules, events: seq<Event>)
    ensures NeverReset(TracesOf(r, events))
  {
    if events != [] {
      hide ToCombat, ToMatch, ToLoot, Run;
      TracesNeverReset(r, events[..|events| - 1]);
      NothingResets(r, Run(r, events[..|events| - 1]), events[|events| - 1]);
    }
  }

  /** The parts of a reached state are what runs of the parts reach; and neither match nor loot is ever reset. */
  lemma PartsOfARun(r: Rules, events: seq<Event>)
    ensures var s, t := Run(r, events), TracesOf(r, events);
            && s.combat == CombatRuns.Run(r.combat, Combat.EMPTY, t.combat)
            && s.game == Match.Run(r.game, Match.Initial(r.game), t.game)
            && s.loot == Loot.Run(r.shop, Loot.EMPTY, t.loot)
            && NeverReset(t)
  {
    hide Run, TracesOf, CombatRuns.Run, Match.Run, Loot.Run;
    CombatOfARun(r, events);
    MatchOfARun(r, events);
    LootOfARun(r, events);
    TracesNeverReset(r, events);
  }

  /** So the treasures of the wired server change by its scheduled spawns only, and its deaths are within budget. */
  lemma WiredRunsConserve(r: Rules, events: seq<Event>)
    requires Sane(r)
    ensures var s, t := Run(r, events), TracesOf(r, events);
            && LootRuns.Orderly(r.shop.config, s.loot) && LootRuns.Counted(r.shop.config, s.loot)
            && LootRuns.Goods(s.loot) == LootRuns.LedgerOver(r.shop, Loot.EMPTY, multiset{}, t.loot)
            && MatchRuns.Budgeted(r.game, s.game)
            && MatchRuns.TotalKills(s.game.records) <= MatchRuns.TotalDeaths(s.game.records)
            && CombatRuns.Sound(r.combat, s.combat)
  {
    hide LootRuns.Orderly, LootRuns.Goods, LootRuns.Counted, LootRuns.LedgerOver, MatchRuns.Budgeted, CombatRuns.Sound, TracesOf, Run;
    var t := TracesOf(r, events);
    PartsOfARun(r, events);
    LootRuns.RunsFromTheStart(r.shop, t.loot);
    MatchRuns.RunsFromTheStart(r.game, t.game);
    CombatRuns.RunsFromTheStart(r.combat, t.combat);
  }
}
