/** The match simulation as an object, updating its phase, clock and records in place. */
module MatchSim {
  import opened Prelude
  import opened Sorting
  import opened Ids
  import Combat
  import opened Match

  class MatchLifecycleSimulation {
    const config: Config
    var phase: Phase
    var preTicks: nat
    var seconds: nat
    var acc: nat
    var startedTick: nat
    var winner: Option<nat>
    var records: Records

    ghost function Holding(): State
      reads this
    {
      State(phase, preTicks, seconds, acc, startedTick, winner, records)
    }

    constructor (config: Config)
      ensures this.config == Sanitize(config)
      ensures Holding() == Initial(this.config)
    {
      var sane := Sanitize(config);
      this.config := sane;
      phase, preTicks, seconds, acc := PreMatch, sane.preMatchTicks, sane.duration, 0;
      startedTick, winner, records := 0, None, map[];
    }

    method Reset()
      modifies this
      ensures Holding() == Step(config, old(Holding()), Event.Reset).0
    {
      phase, preTicks, seconds, acc := PreMatch, config.preMatchTicks, config.duration, 0;
      startedTick, winner := 0, None;
      ghost var before := records;
      var todo := records.Keys;
      while todo != {}
        modifies this`records
        invariant todo <= records.Keys && records.Keys == before.Keys
        invariant forall id :: id in before ==> records[id] == if id in todo then before[id] else WipedRecord(config, before[id])
        decreases todo
      {
        var id :| id in todo;
        records := records[id := records[id].(kills := 0, deaths := 0, coins := 0, respawns := config.budget,
                                              alive := true, eliminated := false, pending := None)];
        todo := todo - {id};
      }
      assert records == Wiped(config, old(Holding())).records;
    }

    method EnsurePlayer(id: nat)
      modifies this`records
      ensures records == Ensure(config, old(records), id)
      ensures Holding() == Step(config, old(Holding()), Join(id)).0
    {
      if id !in records {
        records := records[id := Record(0, 0, 0, config.budget, true, false, false, None)];
      }
      records := records[id := records[id].(connected := true)];
    }

    method RemovePlayer(id: nat)
      modifies this`records
      ensures Holding() == Step(config, old(Holding()), Leave(id)).0
    {
      if id !in records {
        return;
      }
      records := records[id := records[id].(connected := false, pending := None)];
    }

    method EnsureAll(active: seq<nat>) returns (here: set<nat>)
      modifies this`records
      ensures here == set a | a in active
      ensures records.Keys == old(records).Keys + here
      ensures forall id :: id in records ==> records[id] == Noted(old(records), id, here)
    {
      here := {};
      for i := 0 to |active|
        invariant here == set a | a in active[..i]
        invariant records.Keys == old(records).Keys + here
        invariant forall id :: id in records ==> records[id] == Noted(old(records), id, here)
      {
        assert active[..i + 1] == active[..i] + [active[i]];
        here := here + {active[i]};
        EnsurePlayer(active[i]);
      }
      assert active[..|active|] == active;
    }

    function Noted(known: Records, id: nat, here: set<nat>): Record {
      var r := Get(known, id, Newcomer(config));
      if id in here then r.(connected := true) else r
    }

    method MarkConnected(here: set<nat>)
      modifies this`records
      ensures records == map id | id in old(records) :: old(records)[id].(connected := id in here)
    {
      var todo := records.Keys;
      while todo != {}
        invariant todo <= records.Keys && records.Keys == old(records).Keys
        invariant forall id :: id in records ==>
                    records[id] == if id in todo then old(records)[id] else old(records)[id].(connected := id in here)
        decreases todo
      {
        var id :| id in todo;
        records := records[id := records[id].(connected := id in here)];
        todo := todo - {id};
      }
    }

    method NoteActive(active: seq<nat>)
      modifies this`records
      ensures records == Arrive(config, old(records), active)
    {
      var here := EnsureAll(active);
      MarkConnected(here);
    }

    method NoteCombat(news: seq<(nat, bool)>)
      modifies this`records
      ensures records == SeeCombat(config, old(records), news)
    {
      for i := 0 to |news|
        invariant records == SeeCombat(config, old(records), news[..i])
      {
        assert news[..i + 1][..i] == news[..i];
        EnsurePlayer(news[i].0);
        if records[news[i].0].pending.None? {
          records := records[news[i].0 := records[news[i].0].(alive := news[i].1)];
        }
      }
      assert news[..|news|] == news;
    }

    method NoteCoins(news: seq<(nat, int)>) returns (changed: bool)
      modifies this`records
      ensures records == SeeCoins(config, old(records), news).0
      ensures changed == SeeCoins(config, old(records), news).1
    {
      changed := false;
      for i := 0 to |news|
        invariant records == SeeCoins(config, old(records), news[..i]).0
        invariant changed == SeeCoins(config, old(records), news[..i]).1
      {
        assert news[..i + 1][..i] == news[..i];
        EnsurePlayer(news[i].0);
        if records[news[i].0].coins != news[i].1 {
          records := records[news[i].0 := records[news[i].0].(coins := news[i].1)];
          changed := true;
        }
      }
      assert news[..|news|] == news;
    }

    method ConnectedCount() returns (n: nat)
      ensures n == |Connected(records)|
    {
      var todo := records.Keys;
      ghost var counted: set<nat> := {};
      n := 0;
      while todo != {}
        invariant todo <= records.Keys
        invariant counted == set id | id in records.Keys - todo && records[id].connected
        invariant n == |counted|
        decreases todo
      {
        var id :| id in todo;
        todo := todo - {id};
        if records[id].connected {
          n := n + 1;
          counted := counted + {id};
        }
      }
      assert counted == Connected(records);
    }

    method StartMatch(tick: nat)
      modifies this
      ensures Holding() == EnterInMatch(config, old(Holding()), tick)
    {
      phase, seconds, acc, winner, startedTick := InMatch, config.duration, 0, None, tick;
      ghost var before := records;
      var todo := records.Keys;
      while todo != {}
        modifies this`records
        invariant todo <= records.Keys && records.Keys == before.Keys
        invariant forall id :: id in before ==> records[id] == if id in todo then before[id] else Readied(config, before[id])
        decreases todo
      {
        var id :| id in todo;
        records := records[id := records[id].(alive := true, eliminated := false, pending := None, respawns := config.budget)];
        todo := todo - {id};
      }
      assert records == EnterInMatch(config, old(Holding()), tick).records;
    }

    method EndMatch(tick: nat, champion: Option<nat>)
      modifies this
      ensures Holding() == EnterPostMatch(old(Holding()), tick, champion)
    {
      phase, seconds, preTicks, acc, winner, startedTick := PostMatch, 0, 0, 0, champion, tick;
    }

    method CountDown(tick: nat) returns (changed: bool)
      modifies this
      ensures Holding() == Lobby(config, old(Holding()), tick).0
      ensures changed == Lobby(config, old(Holding()), tick).1
    {
      changed := false;
      if phase == PreMatch {
        var n := ConnectedCount();
        if n < config.minPlayers {
          if preTicks != config.preMatchTicks {
            preTicks, changed := config.preMatchTicks, true;
          }
        } else {
          if preTicks > 0 {
            preTicks := preTicks - 1;
          }
          if preTicks == 0 {
            StartMatch(tick);
            changed := true;
          }
        }
      }
    }

    method RunClock(interval: int) returns (expired: bool)
      modifies this`acc, this`seconds
      ensures Holding() == Clock(old(Holding()), interval).0
      ensures expired == Clock(old(Holding()), interval).1
    {
      expired := false;
      if interval > 0 && seconds > 0 {
        acc := acc + interval;
        while acc >= NANOS_PER_SECOND && seconds > 0
          invariant seconds <= old(seconds)
          invariant old(acc) + interval == (old(seconds) - seconds) * NANOS_PER_SECOND + acc
        {
          acc := acc - NANOS_PER_SECOND;
          seconds := seconds - 1;
        }
        expired := seconds == 0;
      }
    }

    /** One listed death, its victim not handled yet. */
    method HandleDeath(tick: nat, death: Combat.Death)
      modifies this`records
      ensures records == ApplyDeath(config, old(records), tick, death.victim, death.killer)
    {
      EnsurePlayer(death.victim);
      var victim := records[death.victim];
      victim := victim.(deaths := victim.deaths + 1, alive := false, pending := None);
      if victim.respawns > 0 {
        victim := victim.(respawns := victim.respawns - 1, eliminated := false, pending := Some(tick + config.respawnDelay));
      } else {
        victim := victim.(eliminated := true);
      }
      records := records[death.victim := victim];
      if death.killer != 0 && death.killer != death.victim {
        EnsurePlayer(death.killer);
        records := records[death.killer := records[death.killer].(kills := records[death.killer].kills + 1)];
      }
    }

    method HandleSorted(tick: nat, ghost deaths: seq<Combat.Death>, sorted: seq<Combat.Death>)
      requires SortedBy(Combat.DeathLess, sorted) && forall d :: d in deaths <==> d in sorted
      modifies this`records
      ensures records == Fall(config, old(records), tick, deaths)
    {
      var handled: set<nat> := {};
      assert Combat.Victims(sorted[..0]) == {};
      for i := 0 to |sorted|
        invariant handled == Combat.Victims(sorted[..i]) && handled <= Combat.Victims(deaths)
        invariant records == FallOf(config, old(records), tick, deaths, handled)
      {
        NextDeath(config, old(records), tick, deaths, sorted, i);
        if sorted[i].victim !in handled {
          HandleDeath(tick, sorted[i]);
        }
        handled := handled + {sorted[i].victim};
      }
      assert sorted[..|sorted|] == sorted;
      assert handled == Combat.Victims(deaths);
    }

    /** Sorts the list and takes the first death of each victim. */
    method HandleDeaths(tick: nat, deaths: seq<Combat.Death>)
      modifies this`records
      ensures records == Fall(config, old(records), tick, deaths)
    {
      var sorted := StdSort(Combat.DeathLess, deaths);
      MultisetMembers(deaths, sorted);
      HandleSorted(tick, deaths, sorted);
    }

    method HandleRespawn(tick: nat, id: nat) returns (back: bool)
      requires id in records
      modifies this`records
      ensures records == old(records)[id := Returned(old(records)[id], tick)]
      ensures back == (id in Returning(old(records), tick))
    {
      back := false;
      var player := records[id];
      if player.pending.Some? && tick >= player.pending.value {
        if player.eliminated {
          records := records[id := player.(pending := None)];
        } else {
          records := records[id := player.(pending := None, alive := true)];
          back := true;
        }
      } else {
        assert records[id := player] == records;
      }
    }

    method HandleNext(ghost before: Records, tick: nat, ids: seq<nat>, i: nat, some: seq<nat>) returns (respawned: seq<nat>)
      requires Ascending(ids) && i < |ids| && ids[i] in before && HandledUpTo(before, tick, ids[..i], some)
      modifies this`records
      ensures HandledUpTo(before, tick, ids[..i + 1], respawned)
    {
      assert ids[..i + 1] == ids[..i] + [ids[i]];
      assert forall k :: 0 <= k < i ==> ids[k] in ids[..i];
      LaterId(some, ids, i);
      respawned := some;
      var back := HandleRespawn(tick, ids[i]);
      if back {
        respawned := respawned + [ids[i]];
      }
    }

    method HandleInTurn(tick: nat, ids: seq<nat>) returns (respawned: seq<nat>)
      requires Ascending(ids) && forall id :: id in ids ==> id in records
      modifies this`records
      ensures HandledUpTo(old(records), tick, ids, respawned)
    {
      respawned := [];
      for i := 0 to |ids|
        invariant HandledUpTo(old(records), tick, ids[..i], respawned)
      {
        assert ids[i] in ids;
        respawned := HandleNext(old(records), tick, ids, i, respawned);
      }
      assert ids[..|ids|] == ids;
    }

    method HandleRespawns(tick: nat) returns (respawned: seq<nat>)
      modifies this`records
      ensures records == Returns(old(records), tick)
      ensures respawned == InOrder(Returning(old(records), tick))
    {
      var ids := SortIds(records.Keys);
      respawned := HandleInTurn(tick, ids);
      AllHandled(old(records), tick, ids, respawned);
    }

    lemma AllHandled(before: Records, tick: nat, ids: seq<nat>, respawned: seq<nat>)
      requires HandledUpTo(before, tick, ids, respawned) && forall id :: id in before ==> id in ids
      ensures records == Returns(before, tick) && respawned == InOrder(Returning(before, tick))
    {
      AscendingUnique(respawned, InOrder(Returning(before, tick)));
    }

    ghost predicate HandledUpTo(before: Records, tick: nat, ids: seq<nat>, respawned: seq<nat>)
      reads this
    {
      && records.Keys == before.Keys
      && (forall id :: id in before ==> records[id] == if id in ids then Returned(before[id], tick) else before[id])
      && Ascending(respawned)
      && (forall id :: id in respawned <==> id in ids && id in Returning(before, tick))
    }

    method SettleByElimination(tick: nat) returns (settled: bool)
      modifies this
      ensures settled == (|Contenders(old(records))| == 1)
      ensures Holding() == if settled then EnterPostMatch(old(Holding()), tick, Some(Least(Contenders(old(records))))) else old(Holding())
    {
      var todo := records.Keys;
      var found: set<nat> := {};
      while todo != {}
        invariant todo <= records.Keys
        invariant found == set id | id in records.Keys - todo && records[id].connected && !records[id].eliminated
        decreases todo
      {
        var id :| id in todo;
        todo := todo - {id};
        if records[id].connected && !records[id].eliminated {
          found := found + {id};
        }
      }
      assert found == Contenders(records);
      var contenders := SortIds(found);
      settled := |contenders| == 1;
      if settled {
        assert contenders[0] in found;
        assert Least(found) in contenders;
        EndMatch(tick, Some(contenders[0]));
      }
    }

    /** The ranked table. */
    method BuildScoreboard() returns (board: seq<Score>)
      ensures IsScoreboard(records, board)
    {
      var todo := records.Keys;
      var lines: seq<Score> := [];
      while todo != {}
        invariant todo <= records.Keys
        invariant forall e :: e in lines <==> e.id in records.Keys - todo && e == ScoreOf(e.id, records[e.id])
        invariant forall i, j :: 0 <= i < j < |lines| ==> lines[i] != lines[j]
        decreases todo
      {
        var id :| id in todo;
        todo := todo - {id};
        assert ScoreOf(id, records[id]) !in lines;
        lines := lines + [ScoreOf(id, records[id])];
      }
      board := StdSort(RankingBetter, lines);
      MultisetMembers(lines, board);
      RankedStrictly(records, lines, board);
    }

    method SettleByTime(tick: nat)
      modifies this
      ensures Holding() == EnterPostMatch(old(Holding()), tick, Leader(old(records)))
    {
      var board := BuildScoreboard();
      ScoreboardIsUnique(records, board, board);
      EndMatch(tick, if board == [] then None else Some(board[0].id));
    }

    method Open(input: Input) returns (changed: bool, coins: bool, expired: bool)
      modifies this
      ensures Holding() == Opening(config, old(Holding()), input).0
      ensures Report([], changed, coins) == Opening(config, old(Holding()), input).1
      ensures expired == Opening(config, old(Holding()), input).2
    {
      NoteActive(input.active);
      NoteCombat(input.combat);
      coins := NoteCoins(input.coins);
      var running := phase == InMatch;
      changed := CountDown(input.tick);
      expired := false;
      if running {
        expired := RunClock(input.interval);
      }
    }

    method Close(tick: nat, expired: bool) returns (over: bool)
      requires phase == InMatch
      modifies this
      ensures Holding() == Closing(old(Holding()), tick, expired)
      ensures over == (phase == PostMatch)
    {
      over := SettleByElimination(tick);
      if phase == InMatch && expired {
        SettleByTime(tick);
        over := true;
      }
    }

    method ResolveTick(input: Input) returns (report: Report, board: seq<Score>)
      modifies this
      ensures Holding() == Step(config, old(Holding()), TickEvent(input)).0
      ensures report == Step(config, old(Holding()), TickEvent(input)).1
      ensures IsScoreboard(records, board)
    {
      var changed, coins, expired := Open(input);
      var respawned: seq<nat> := [];
      var scores := coins;
      if phase == InMatch {
        if input.deaths != [] {
          scores := true;
        }
        HandleDeaths(input.tick, input.deaths);
        respawned := HandleRespawns(input.tick);
        scores := scores || respawned != [];
        var over := Close(input.tick, expired);
        changed := changed || over;
      }
      report := Report(respawned, changed, scores);
      board := BuildScoreboard();
    }
  }

  /** In the sorted list a victim's first death is the credited one, and it comes after all smaller victims. */
  lemma SortedDeath(deaths: seq<Combat.Death>, sorted: seq<Combat.Death>, i: nat)
    requires i < |sorted| && SortedBy(Combat.DeathLess, sorted) && (forall d :: d in deaths <==> d in sorted)
    ensures Combat.Victims(sorted[..i + 1]) == Combat.Victims(sorted[..i]) + {sorted[i].victim}
    ensures Combat.Victims(sorted[..i]) <= Combat.Victims(deaths) && sorted[i].victim in Combat.Victims(deaths)
    ensures forall v :: v in Combat.Victims(sorted[..i]) ==> v <= sorted[i].victim
    ensures sorted[i].victim !in Combat.Victims(sorted[..i]) ==> Credited(deaths, sorted[i].victim) == sorted[i].killer
  {
    var first := sorted[i];
    assert sorted[..i + 1] == sorted[..i] + [first];
    assert first in deaths;
    assert forall j :: 0 <= j < i ==> sorted[j] in sorted[..i];
    if first.victim !in Combat.Victims(sorted[..i]) {
      forall d | d in deaths && d.victim == first.victim ensures first.killer <= d.killer {
        var j :| 0 <= j < |sorted| && sorted[j] == d;
        assert j > i ==> !Combat.DeathLess(sorted[j], sorted[i]);
      }
      assert first.killer in Killers(deaths, first.victim);
    }
  }

  lemma OneMoreId(ids: set<nat>, v: nat)
    requires v !in ids && forall u :: u in ids ==> u <= v
    ensures InOrder(ids + {v}) == InOrder(ids) + [v]
  {
    AppendGreatest(InOrder(ids), InOrder(ids + {v}), v);
  }

  /** The records once the deaths of these victims are handled. */
  ghost function FallOf(c: Config, rs: Records, tick: nat, deaths: seq<Combat.Death>, victims: set<nat>): Records
    requires victims <= Combat.Victims(deaths)
  {
    ApplyDeaths(c, rs, tick, deaths, InOrder(victims))
  }

  lemma OneMoreVictim(c: Config, rs: Records, tick: nat, deaths: seq<Combat.Death>, handled: set<nat>, v: nat)
    requires handled <= Combat.Victims(deaths) && v in Combat.Victims(deaths) && v !in handled && forall u :: u in handled ==> u <= v
    ensures FallOf(c, rs, tick, deaths, handled + {v}) ==
            ApplyDeath(c, FallOf(c, rs, tick, deaths, handled), tick, v, Credited(deaths, v))
  {
    OneMoreId(handled, v);
  }

  lemma NextDeath(c: Config, rs: Records, tick: nat, deaths: seq<Combat.Death>, sorted: seq<Combat.Death>, i: nat)
    requires i < |sorted| && SortedBy(Combat.DeathLess, sorted) && (forall d :: d in deaths <==> d in sorted)
    ensures var done, next, first := Combat.Victims(sorted[..i]), Combat.Victims(sorted[..i + 1]), sorted[i];
            && done <= Combat.Victims(deaths) && next <= Combat.Victims(deaths) && next == done + {first.victim}
            && FallOf(c, rs, tick, deaths, next) ==
               if first.victim in done then FallOf(c, rs, tick, deaths, done)
               else ApplyDeath(c, FallOf(c, rs, tick, deaths, done), tick, first.victim, first.killer)
  {
    SortedDeath(deaths, sorted, i);
    if sorted[i].victim in Combat.Victims(sorted[..i]) {
      assert Combat.Victims(sorted[..i + 1]) == Combat.Victims(sorted[..i]);
    } else {
      OneMoreVictim(c, rs, tick, deaths, Combat.Victims(sorted[..i]), sorted[i].victim);
    }
  }

  lemma LaterId(some: seq<nat>, ids: seq<nat>, i: nat)
    requires Ascending(ids) && Ascending(some) && i < |ids| && forall id :: id in some ==> id in ids[..i]
    ensures Ascending(some + [ids[i]])
  {
    forall k | 0 <= k < |some| ensures some[k] < ids[i] {
      assert some[k] in ids[..i];
    }
  }

  lemma RankedStrictly(rs: Records, lines: seq<Score>, board: seq<Score>)
    requires forall e :: e in lines <==> e.id in rs && e == ScoreOf(e.id, rs[e.id])
    requires forall i, j :: 0 <= i < j < |lines| ==> lines[i] != lines[j]
    requires multiset(board) == multiset(lines) && SortedBy(RankingBetter, board)
    ensures IsScoreboard(rs, board)
  {
    MultisetMembers(lines, board);
    forall i, j | 0 <= i < j < |board| ensures RankingBetter(board[i], board[j]) {
      SortKeepsDistinct(lines, board, i, j);
      assert board[i] in lines && board[j] in lines;
    }
  }
}
