/** server/src/MatchLifecycleSimulation.cpp as a value: the phase machine, the clock and the records. */
module Match {
  import opened Prelude
  import opened Ids
  import Combat

  datatype Phase = PreMatch | InMatch | PostMatch

  datatype Config = Config(preMatchTicks: nat, duration: nat, budget: nat, respawnDelay: nat, minPlayers: nat)

  /** One player's standing. The source's `participated` flag is set on every record it creates, so it is not kept. */
  datatype Record = Record(kills: nat, deaths: nat, coins: int, respawns: nat, alive: bool, eliminated: bool,
                           connected: bool, pending: Option<nat>)

  type Records = map<nat, Record>

  datatype State = State(phase: Phase, preTicks: nat, seconds: nat, acc: nat, startedTick: nat, winner: Option<nat>, records: Records)

  /** What a tick is told by the rest of the server. */
  datatype Input = Input(tick: nat, interval: int, active: seq<nat>, combat: seq<(nat, bool)>, deaths: seq<Combat.Death>, coins: seq<(nat, int)>)

  datatype Report = Report(respawned: seq<nat>, stateChanged: bool, scoreboardChanged: bool)

  function Sanitize(c: Config): (r: Config)
    ensures Sane(r) && (Sane(c) ==> r == c)
    ensures r.preMatchTicks == c.preMatchTicks && r.budget == c.budget
    ensures r.duration == c.duration || (c.duration == 0 && r.duration == 600)
    ensures r.respawnDelay == c.respawnDelay || (c.respawnDelay == 0 && r.respawnDelay == 60)
    ensures r.minPlayers == c.minPlayers || (c.minPlayers == 0 && r.minPlayers == 1)
  {
    c.(duration := if c.duration == 0 then 600 else c.duration,
       respawnDelay := if c.respawnDelay == 0 then 60 else c.respawnDelay,
       minPlayers := if c.minPlayers == 0 then 1 else c.minPlayers)
  }

  ghost predicate Sane(c: Config) { c.duration > 0 && c.respawnDelay > 0 && c.minPlayers > 0 }

  function Initial(c: Config): State { State(PreMatch, c.preMatchTicks, c.duration, 0, 0, None, map[]) }

  // ---------------------------------------------------------------------------------------------
  // Gathering a tick's news
  // ---------------------------------------------------------------------------------------------

  function Newcomer(c: Config): Record { Record(0, 0, 0, c.budget, true, false, true, None) }

  function Ensure(c: Config, rs: Records, id: nat): Records {
    rs[id := Get(rs, id, Newcomer(c)).(connected := true)]
  }

  /** Everybody active is on record, and exactly they are connected. */
  function Arrive(c: Config, rs: Records, active: seq<nat>): Records {
    map id | id in rs.Keys + (set a | a in active) :: Get(rs, id, Newcomer(c)).(connected := id in active)
  }

  function SawCombat(c: Config, rs: Records, news: (nat, bool)): Records {
    var known := Ensure(c, rs, news.0);
    var r := known[news.0];
    known[news.0 := if r.pending.None? then r.(alive := news.1) else r]
  }

  function SeeCombat(c: Config, rs: Records, news: seq<(nat, bool)>): Records {
    if news == [] then rs else SawCombat(c, SeeCombat(c, rs, news[..|news| - 1]), news[|news| - 1])
  }

  function SawCoins(c: Config, rs: Records, news: (nat, int)): Records {
    var known := Ensure(c, rs, news.0);
    known[news.0 := known[news.0].(coins := news.1)]
  }

  function CoinsDiffer(c: Config, rs: Records, news: (nat, int)): bool {
    Get(rs, news.0, Newcomer(c)).coins != news.1
  }

  function SeeCoins(c: Config, rs: Records, news: seq<(nat, int)>): (Records, bool) {
    if news == [] then (rs, false)
    else
      var (before, changed) := SeeCoins(c, rs, news[..|news| - 1]);
      (SawCoins(c, before, news[|news| - 1]), changed || CoinsDiffer(c, before, news[|news| - 1]))
  }

  function Gather(c: Config, rs: Records, i: Input): (Records, bool) {
    SeeCoins(c, SeeCombat(c, Arrive(c, rs, i.active), i.combat), i.coins)
  }

  // ---------------------------------------------------------------------------------------------
  // Phases and the clock
  // ---------------------------------------------------------------------------------------------

  function Connected(rs: Records): set<nat> { set id | id in rs && rs[id].connected }

  function Contenders(rs: Records): set<nat> { set id | id in rs && rs[id].connected && !rs[id].eliminated }

  function Readied(c: Config, r: Record): Record { r.(alive := true, eliminated := false, pending := None, respawns := c.budget) }

  function EnterInMatch(c: Config, s: State, tick: nat): State {
    s.(phase := InMatch, seconds := c.duration, acc := 0, winner := None, startedTick := tick,
       records := map id | id in s.records :: Readied(c, s.records[id]))
  }

  function EnterPostMatch(s: State, tick: nat, winner: Option<nat>): State {
    s.(phase := PostMatch, seconds := 0, preTicks := 0, acc := 0, winner := winner, startedTick := tick)
  }

  /** The countdown before a match; whether anything worth announcing happened. */
  function Lobby(c: Config, s: State, tick: nat): (State, bool) {
    if s.phase != PreMatch then (s, false)
    else if |Connected(s.records)| < c.minPlayers then (s.(preTicks := c.preMatchTicks), s.preTicks != c.preMatchTicks)
    else
      var left := Max(0, s.preTicks - 1);
      if left == 0 then (EnterInMatch(c, s.(preTicks := 0), tick), true) else (s.(preTicks := left), false)
  }

  /** The match clock: whole seconds are taken off as they fill up; whether it ran out just now. */
  function Clock(s: State, interval: int): (State, bool) {
    if interval <= 0 || s.seconds == 0 then (s, false)
    else
      var total := s.acc + interval;
      var whole := Min(s.seconds, total / NANOS_PER_SECOND);
      assert whole * NANOS_PER_SECOND <= total;
      (s.(seconds := s.seconds - whole, acc := total - whole * NANOS_PER_SECOND), s.seconds == whole)
  }

  // ---------------------------------------------------------------------------------------------
  // Deaths and respawns, with no order mentioned
  // ---------------------------------------------------------------------------------------------

  function Killers(deaths: seq<Combat.Death>, v: nat): set<nat> { set d | d in deaths && d.victim == v :: d.killer }

  /** Who is credited with a victim's death: the claimant with the least id. */
  ghost function Credited(deaths: seq<Combat.Death>, v: nat): nat
    requires v in Combat.Victims(deaths)
  {
    assert exists d :: d in deaths && d.victim == v;
    assert Killers(deaths, v) != {} by {
      var d :| d in deaths && d.victim == v;
      assert d.killer in Killers(deaths, v);
    }
    Least(Killers(deaths, v))
  }

  function Fallen(c: Config, r: Record, tick: nat): Record {
    var dead := r.(deaths := r.deaths + 1, alive := false);
    if r.respawns > 0 then dead.(respawns := r.respawns - 1, eliminated := false, pending := Some(tick + c.respawnDelay))
    else dead.(eliminated := true, pending := None)
  }

  function Credit(c: Config, rs: Records, killer: nat): Records {
    var known := Ensure(c, rs, killer);
    known[killer := known[killer].(kills := known[killer].kills + 1)]
  }

  function ApplyDeath(c: Config, rs: Records, tick: nat, victim: nat, killer: nat): Records {
    var known := Ensure(c, rs, victim);
    var fallen := known[victim := Fallen(c, known[victim], tick)];
    if killer != 0 && killer != victim then Credit(c, fallen, killer) else fallen
  }

  ghost function ApplyDeaths(c: Config, rs: Records, tick: nat, deaths: seq<Combat.Death>, victims: seq<nat>): Records
    requires forall v :: v in victims ==> v in Combat.Victims(deaths)
  {
    if victims == [] then rs
    else
      var last := victims[|victims| - 1];
      ApplyDeath(c, ApplyDeaths(c, rs, tick, deaths, victims[..|victims| - 1]), tick, last, Credited(deaths, last))
  }

  ghost function Fall(c: Config, rs: Records, tick: nat, deaths: seq<Combat.Death>): Records {
    ApplyDeaths(c, rs, tick, deaths, InOrder(Combat.Victims(deaths)))
  }

  predicate IsDue(r: Record, tick: nat) { r.pending.Some? && r.pending.value <= tick }

  function Returned(r: Record, tick: nat): Record {
    if IsDue(r, tick) then r.(pending := None, alive := r.alive || !r.eliminated) else r
  }

  function Returns(rs: Records, tick: nat): Records { map id | id in rs :: Returned(rs[id], tick) }

  function Returning(rs: Records, tick: nat): set<nat> { set id | id in rs && IsDue(rs[id], tick) && !rs[id].eliminated }

  // ---------------------------------------------------------------------------------------------
  // The ranking
  // ---------------------------------------------------------------------------------------------

  /** A line of the scoreboard. */
  datatype Score = Score(id: nat, kills: nat, deaths: nat, coins: int, respawns: nat, alive: bool, eliminated: bool, connected: bool)

  function ScoreOf(id: nat, r: Record): Score {
    Score(id, r.kills, r.deaths, r.coins, r.respawns, r.alive, r.eliminated, r.connected)
  }

  predicate RankingBetter(a: Score, b: Score) {
    if a.kills != b.kills then a.kills > b.kills
    else if a.coins != b.coins then a.coins > b.coins
    else if a.deaths != b.deaths then a.deaths < b.deaths
    else a.id < b.id
  }

  /** Ranks strictly before everybody else on record. */
  ghost predicate IsLeader(rs: Records, id: nat) {
    id in rs && forall o :: o in rs && o != id ==> RankingBetter(ScoreOf(id, rs[id]), ScoreOf(o, rs[o]))
  }

  lemma {:induction false} SomebodyLeads(rs: Records)
    requires rs != map[]
    ensures exists id :: IsLeader(rs, id)
    decreases |rs|
  {
    var k :| k in rs;
    var rest := rs - {k};
    assert forall o :: o in rs && o != k ==> o in rest;
    if rest == map[] {
      assert IsLeader(rs, k);
    } else {
      assert |rest.Keys| < |rs.Keys|;
      SomebodyLeads(rest);
      var best :| IsLeader(rest, best);
      if RankingBetter(ScoreOf(best, rs[best]), ScoreOf(k, rs[k])) {
        assert IsLeader(rs, best);
      } else {
        assert IsLeader(rs, k);
      }
    }
  }

  lemma LeaderIsUnique(rs: Records, a: nat, b: nat)
    requires IsLeader(rs, a) && IsLeader(rs, b)
    ensures a == b
  {
    assert a != b ==> RankingBetter(ScoreOf(a, rs[a]), ScoreOf(b, rs[b]));
  }

  ghost function Leader(rs: Records): (winner: Option<nat>)
    ensures winner.None? <==> rs == map[]
    ensures winner.Some? ==> IsLeader(rs, winner.value)
  {
    if rs == map[] then None
    else
      SomebodyLeads(rs);
      var id :| IsLeader(rs, id);
      Some(id)
  }

  /** All records, each once, every line ranking strictly before all later ones. */
  ghost predicate IsScoreboard(rs: Records, board: seq<Score>) {
    && (forall e :: e in board <==> e.id in rs && e == ScoreOf(e.id, rs[e.id]))
    && (forall i, j :: 0 <= i < j < |board| ==> RankingBetter(board[i], board[j]))
  }

  lemma {:induction false} RankedUnique(a: seq<Score>, b: seq<Score>)
    requires forall e :: e in a <==> e in b
    requires forall i, j :: 0 <= i < j < |a| ==> RankingBetter(a[i], a[j])
    requires forall i, j :: 0 <= i < j < |b| ==> RankingBetter(b[i], b[j])
    ensures a == b
  {
    assert a == [] <==> b == [] by {
      assert |a| > 0 ==> a[0] in b;
      assert |b| > 0 ==> b[0] in a;
    }
    if a != [] {
      assert a[0] in b && b[0] in a;
      assert a[0] == b[0];
      forall e ensures e in a[1..] <==> e in b[1..] {
        assert e in a[1..] <==> e in a && e != a[0] by {
          if e in a && e != a[0] { var i :| 0 <= i < |a| && a[i] == e; assert a[1..][i - 1] == e; }
        }
        assert e in b[1..] <==> e in b && e != b[0] by {
          if e in b && e != b[0] { var i :| 0 <= i < |b| && b[i] == e; assert b[1..][i - 1] == e; }
        }
      }
      RankedUnique(a[1..], b[1..]);
    }
  }

  /** There is one scoreboard, its length is the number of records, and the leader heads it. */
  lemma ScoreboardIsUnique(rs: Records, a: seq<Score>, b: seq<Score>)
    requires IsScoreboard(rs, a) && IsScoreboard(rs, b)
    ensures a == b
    ensures Leader(rs) == if a == [] then None else Some(a[0].id)
  {
    RankedUnique(a, b);
    if rs != map[] {
      var id :| id in rs;
      assert ScoreOf(id, rs[id]) in a;
    }
    if a != [] {
      assert a[0] in a;
      assert IsLeader(rs, a[0].id) by {
        forall o | o in rs && o != a[0].id ensures RankingBetter(a[0], ScoreOf(o, rs[o])) {
          assert ScoreOf(o, rs[o]) in a;
          var j :| 0 <= j < |a| && a[j] == ScoreOf(o, rs[o]);
        }
      }
      LeaderIsUnique(rs, a[0].id, Leader(rs).value);
    }
  }

  // ---------------------------------------------------------------------------------------------
  // One tick
  // ---------------------------------------------------------------------------------------------

  /** The state before deaths are handled, what was announced, and whether the clock just ran out. */
  ghost function Opening(c: Config, s: State, i: Input): (State, Report, bool) {
    var (rs, coins) := Gather(c, s.records, i);
    var (t, changed) := Lobby(c, s.(records := rs), i.tick);
    var (u, expired) := if s.phase == InMatch then Clock(t, i.interval) else (t, false);
    (u, Report([], changed, coins), expired)
  }

  ghost function Closing(s: State, tick: nat, expired: bool): State {
    var left := Contenders(s.records);
    if |left| == 1 then EnterPostMatch(s, tick, Some(Least(left)))
    else if expired then EnterPostMatch(s, tick, Leader(s.records))
    else s
  }

  ghost function Tick(c: Config, s: State, i: Input): (State, Report) {
    var (t, news, expired) := Opening(c, s, i);
    if t.phase != InMatch then (t, news)
    else
      var fallen := Fall(c, t.records, i.tick, i.deaths);
      var back := Returning(fallen, i.tick);
      var u := Closing(t.(records := Returns(fallen, i.tick)), i.tick, expired);
      (u, Report(InOrder(back), news.stateChanged || u.phase == PostMatch, news.scoreboardChanged || i.deaths != [] || back != {}))
  }

  function Removed(rs: Records, id: nat): Records {
    if id in rs then rs[id := rs[id].(connected := false, pending := None)] else rs
  }

  function WipedRecord(c: Config, r: Record): Record {
    r.(kills := 0, deaths := 0, coins := 0, respawns := c.budget, alive := true, eliminated := false, pending := None)
  }

  function Wiped(c: Config, s: State): State {
    State(PreMatch, c.preMatchTicks, c.duration, 0, 0, None, map id | id in s.records :: WipedRecord(c, s.records[id]))
  }

  /** What can happen to the match. */
  datatype Event = Join(id: nat) | Leave(id: nat) | Reset | TickEvent(input: Input)

  ghost function Step(c: Config, s: State, e: Event): (State, Report) {
    match e
    case Join(id) => (s.(records := Ensure(c, s.records, id)), QUIET)
    case Leave(id) => (s.(records := Removed(s.records, id)), QUIET)
    case Reset => (Wiped(c, s), QUIET)
    case TickEvent(i) => Tick(c, s, i)
  }

  const QUIET := Report([], false, false)

  ghost function Run(c: Config, s: State, events: seq<Event>): State
    decreases events
  {
    if events == [] then s else Run(c, Step(c, s, events[0]).0, events[1..])
  }
}
