/** Who wins and who leads, by kills, coins, deaths and id; whose kill it is; and when a full lobby opens. */
module MatchMeaning {
  import opened Prelude
  import opened Ids
  import Combat
  import opened Match
  import opened MatchRuns

  // ---------------------------------------------------------------------------------------------
  // Ranks
  // ---------------------------------------------------------------------------------------------

  /** Nobody has more kills; among equal kills nobody more coins, then nobody fewer deaths, then nobody a smaller id. */
  ghost predicate Tops(rs: Records, w: nat) {
    && w in rs
    && (forall o :: o in rs ==> rs[o].kills <= rs[w].kills)
    && (forall o :: o in rs && rs[o].kills == rs[w].kills ==> rs[o].coins <= rs[w].coins)
    && (forall o :: o in rs && rs[o].kills == rs[w].kills && rs[o].coins == rs[w].coins ==> rs[o].deaths >= rs[w].deaths)
    && (forall o :: o in rs && rs[o].kills == rs[w].kills && rs[o].coins == rs[w].coins && rs[o].deaths == rs[w].deaths ==> w <= o)
  }

  lemma LeaderTops(rs: Records, w: nat)
    ensures IsLeader(rs, w) <==> Tops(rs, w)
  {
    if IsLeader(rs, w) {
      forall o | o in rs && o != w ensures RankingBetter(ScoreOf(w, rs[w]), ScoreOf(o, rs[o])) {}
    }
  }

  /** When a match ends and nobody is the last one standing, the time is up and the winner tops everybody on record. */
  lemma WinnerOnTimeTops(c: Config, s: State, i: Input)
    requires s.phase != PostMatch && Opening(c, s, i).0.phase == InMatch && Tick(c, s, i).0.phase == PostMatch
    requires !exists id :: LastStanding(Tick(c, s, i).0.records, id)
    ensures Opening(c, s, i).2
    ensures var t := Tick(c, s, i).0; if t.winner.Some? then Tops(t.records, t.winner.value) else t.records == map[]
  {
    var t := Tick(c, s, i).0;
    EndIsDecided(c, s, i);
    if t.winner.Some? { LeaderTops(t.records, t.winner.value); }
    hide Tick, Opening;
  }

  /** The first of two lines has no fewer kills, with equal kills no fewer coins, then no more deaths, then the smaller id. */
  predicate Above(a: Score, b: Score) {
    && a.kills >= b.kills
    && (a.kills == b.kills ==> a.coins >= b.coins)
    && (a.kills == b.kills && a.coins == b.coins ==> a.deaths <= b.deaths)
    && (a.kills == b.kills && a.coins == b.coins && a.deaths == b.deaths ==> a.id < b.id)
  }

  /** A scoreboard lists everybody on record, and from top to bottom kills never rise, and so on among equals. */
  lemma BoardDescends(rs: Records, board: seq<Score>)
    ensures IsScoreboard(rs, board) <==>
            && (forall e :: e in board <==> e.id in rs && e == ScoreOf(e.id, rs[e.id]))
            && (forall i, j :: 0 <= i < j < |board| ==> Above(board[i], board[j]))
  {
    if forall e :: e in board <==> e.id in rs && e == ScoreOf(e.id, rs[e.id]) {
      forall i, j | 0 <= i < j < |board| ensures RankingBetter(board[i], board[j]) <==> Above(board[i], board[j]) {}
    }
  }

  // ---------------------------------------------------------------------------------------------
  // Whose kill it is
  // ---------------------------------------------------------------------------------------------

  /** The least of those listed as the victim's killers. */
  ghost predicate HasTheKill(deaths: seq<Combat.Death>, v: nat, id: nat) {
    && (exists d :: d in deaths && d.victim == v && d.killer == id)
    && (forall d :: d in deaths && d.victim == v ==> id <= d.killer)
  }

  lemma CreditedHasTheKill(deaths: seq<Combat.Death>, v: nat, id: nat)
    requires v in Combat.Victims(deaths)
    ensures HasTheKill(deaths, v, id) <==> Credited(deaths, v) == id
  {
    var least := Credited(deaths, v);
    assert least in Killers(deaths, v);
    forall d | d in deaths && d.victim == v ensures d.killer in Killers(deaths, v) {}
    assert HasTheKill(deaths, v, least);
    if HasTheKill(deaths, v, id) {
      var d :| d in deaths && d.victim == v && d.killer == id;
      var e :| e in deaths && e.victim == v && e.killer == least;
      assert id <= e.killer && least <= d.killer;
    }
  }

  /** The victims whose kill a player is credited with: nobody gets one for number 0 or for falling by its own hand. */
  ghost function KillsBy(deaths: seq<Combat.Death>, victims: set<nat>, id: nat): set<nat> {
    set v | v in victims && HasTheKill(deaths, v, id) && id != 0 && id != v
  }

  function KillsOf(rs: Records, id: nat): nat { if id in rs then rs[id].kills else 0 }

  lemma OneDeathCredits(c: Config, rs: Records, tick: nat, victim: nat, killer: nat, id: nat)
    ensures KillsOf(ApplyDeath(c, rs, tick, victim, killer), id) ==
            KillsOf(rs, id) + if id == killer && killer != 0 && killer != victim then 1 else 0
  {
  }

  lemma {:induction false} DeathsCredit(c: Config, rs: Records, tick: nat, deaths: seq<Combat.Death>, victims: seq<nat>, done: set<nat>, id: nat)
    requires forall v :: v in victims ==> v in Combat.Victims(deaths)
    requires forall v :: v in victims <==> v in done
    requires Ascending(victims)
    ensures KillsOf(ApplyDeaths(c, rs, tick, deaths, victims), id) == KillsOf(rs, id) + |KillsBy(deaths, done, id)|
  {
    hide ApplyDeath, HasTheKill, Credited;
    if victims == [] {
      assert KillsBy(deaths, done, id) == {};
    } else {
      var n := |victims| - 1;
      var v := victims[n];
      WithoutLast(victims, done);
      DeathsCredit(c, rs, tick, deaths, victims[..n], done - {v}, id);
      OneDeathCredits(c, ApplyDeaths(c, rs, tick, deaths, victims[..n]), tick, v, Credited(deaths, v), id);
      CreditedHasTheKill(deaths, v, id);
      var before := KillsBy(deaths, done - {v}, id);
      if Credited(deaths, v) == id && id != 0 && id != v {
        assert KillsBy(deaths, done, id) == before + {v};
      } else {
        assert KillsBy(deaths, done, id) == before;
      }
    }
  }

  lemma OpeningKeepsKills(c: Config, s: State, i: Input, id: nat)
    ensures KillsOf(Opening(c, s, i).0.records, id) == KillsOf(s.records, id)
  {
    GatherIsNews(c, s.records, i);
    var rs := Gather(c, s.records, i).0;
    assert id in rs ==> SameStanding(Get(s.records, id, Newcomer(c)), rs[id]);
    hide Gather;
  }

  /** A tick of the match gives each player one kill for every victim it has the kill of, and nobody any other. */
  lemma TickCreditsKills(c: Config, s: State, i: Input, id: nat)
    ensures var earned := if Opening(c, s, i).0.phase == InMatch then |KillsBy(i.deaths, Combat.Victims(i.deaths), id)| else 0;
            KillsOf(Tick(c, s, i).0.records, id) == KillsOf(s.records, id) + earned
  {
    OpeningKeepsKills(c, s, i, id);
    var t := Opening(c, s, i).0;
    hide Opening, ApplyDeaths;
    if t.phase == InMatch {
      DeathsCredit(c, t.records, i.tick, i.deaths, InOrder(Combat.Victims(i.deaths)), Combat.Victims(i.deaths), id);
    }
  }

  // ---------------------------------------------------------------------------------------------
  // When the lobby opens
  // ---------------------------------------------------------------------------------------------

  /** No reset, and enough players in every tick. */
  ghost predicate FullLobby(c: Config, s: State, events: seq<Event>)
    decreases events
  {
    events == [] ||
    (&& !events[0].Reset?
     && (events[0].TickEvent? ==> |Connected(Gather(c, s.records, events[0].input).0)| >= c.minPlayers)
     && FullLobby(c, Step(c, s, events[0]).0, events[1..]))
  }

  lemma LobbyTick(c: Config, s: State, i: Input)
    requires Sane(c) && s.phase == PreMatch
    ensures var t, enough := Tick(c, s, i).0, |Connected(Gather(c, s.records, i).0)| >= c.minPlayers;
            && (!enough ==> t.phase == PreMatch && t.preTicks == c.preMatchTicks)
            && (enough && s.preTicks > 1 ==> t.phase == PreMatch && t.preTicks == s.preTicks - 1)
            && (enough && s.preTicks <= 1 ==> t.phase != PreMatch)
  {
    hide Gather, Fall, Returns;
  }

  lemma LobbyStep(c: Config, s: State, e: Event)
    requires Sane(c) && s.phase == PreMatch && !e.Reset?
    requires e.TickEvent? ==> |Connected(Gather(c, s.records, e.input).0)| >= c.minPlayers
    ensures var t := Step(c, s, e).0;
            && (!e.TickEvent? ==> t.phase == PreMatch && t.preTicks == s.preTicks)
            && (e.TickEvent? && s.preTicks > 1 ==> t.phase == PreMatch && t.preTicks == s.preTicks - 1)
            && (e.TickEvent? && s.preTicks <= 1 ==> t.phase != PreMatch)
  {
    if e.TickEvent? {
      LobbyTick(c, s, e.input);
      hide Tick;
    }
  }

  /**
   * With enough players throughout, whoever comes and goes between ticks, a lobby stays open for exactly as many ticks as
   * its countdown has left, the last of which starts the match; so a new server's opens in tick max(1, preMatchTicks).
   */
  lemma {:induction false} LobbyOpensOnTime(c: Config, s: State, events: seq<Event>)
    requires Sane(c) && s.phase == PreMatch && FullLobby(c, s, events)
    ensures Run(c, s, events).phase == PreMatch <==> TickCount(events) < Max(1, s.preTicks)
    decreases events
  {
    hide Step, Gather;
    if events != [] {
      var t := Step(c, s, events[0]).0;
      LobbyStep(c, s, events[0]);
      if t.phase == PreMatch {
        LobbyOpensOnTime(c, t, events[1..]);
      } else {
        FullLobbyHasNoReset(c, t, events[1..]);
        PhasesOnlyForward(c, t, events[1..]);
      }
    }
  }

  lemma {:induction false} FullLobbyHasNoReset(c: Config, s: State, events: seq<Event>)
    requires FullLobby(c, s, events)
    ensures NoReset(events)
    decreases events
  {
    hide Step, Gather;
    if events != [] {
      FullLobbyHasNoReset(c, Step(c, s, events[0]).0, events[1..]);
      assert forall e :: e in events ==> e == events[0] || e in events[1..];
    }
  }
}
