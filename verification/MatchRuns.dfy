/** The match over whole runs: the clock, the budget of respawns, the phases and the winner. */
module MatchRuns {
  import opened Prelude
  import opened Ids
  import opened Totals
  import Combat
  import opened Match

  // ---------------------------------------------------------------------------------------------
  // What a tick's news can change
  // ---------------------------------------------------------------------------------------------

  /** A record whose tallies, budget and pending respawn are as before, and who is not brought to life while waiting. */
  ghost predicate SameStanding(a: Record, b: Record) {
    && a.kills == b.kills && a.deaths == b.deaths && a.respawns == b.respawns && a.eliminated == b.eliminated
    && a.pending == b.pending && (a.pending.Some? ==> a.alive == b.alive)
  }

  ghost predicate OnlyNews(c: Config, rs: Records, t: Records) {
    && (forall id :: id in rs ==> id in t)
    && (forall id :: id in t ==> SameStanding(Get(rs, id, Newcomer(c)), t[id]))
  }

  lemma {:induction false} SeeCombatIsNews(c: Config, rs: Records, news: seq<(nat, bool)>)
    ensures OnlyNews(c, rs, SeeCombat(c, rs, news))
  {
    if news != [] { SeeCombatIsNews(c, rs, news[..|news| - 1]); }
  }

  lemma {:induction false} SeeCoinsIsNews(c: Config, rs: Records, news: seq<(nat, int)>)
    ensures OnlyNews(c, rs, SeeCoins(c, rs, news).0)
  {
    if news != [] { SeeCoinsIsNews(c, rs, news[..|news| - 1]); }
  }

  lemma NewsOnNews(c: Config, a: Records, b: Records, d: Records)
    requires OnlyNews(c, a, b) && OnlyNews(c, b, d)
    ensures OnlyNews(c, a, d)
  {
    forall id | id in d ensures SameStanding(Get(a, id, Newcomer(c)), d[id]) {
      assert SameStanding(Get(b, id, Newcomer(c)), d[id]);
    }
  }

  lemma GatherIsNews(c: Config, rs: Records, i: Input)
    ensures OnlyNews(c, rs, Gather(c, rs, i).0)
  {
    var a := Arrive(c, rs, i.active);
    var b := SeeCombat(c, a, i.combat);
    SeeCombatIsNews(c, a, i.combat);
    SeeCoinsIsNews(c, b, i.coins);
    NewsOnNews(c, rs, a, b);
    NewsOnNews(c, rs, b, SeeCoins(c, b, i.coins).0);
  }

  // ---------------------------------------------------------------------------------------------
  // The budget of respawns
  // ---------------------------------------------------------------------------------------------

  ghost predicate Fit(c: Config, r: Record) {
    && r.respawns == Max(0, c.budget - r.deaths)
    && (r.eliminated <==> r.deaths > c.budget)
    && (r.pending.Some? ==> !r.eliminated && !r.alive)
  }

  ghost predicate AllFit(c: Config, rs: Records) { forall id :: id in rs ==> Fit(c, rs[id]) }

  ghost predicate Untouched(rs: Records) { forall id :: id in rs ==> rs[id].deaths == 0 && rs[id].kills == 0 }

  ghost predicate Budgeted(c: Config, s: State) {
    AllFit(c, s.records) && (s.phase == PreMatch ==> Untouched(s.records))
  }

  lemma DeathKeepsBudgets(c: Config, rs: Records, tick: nat, victim: nat, killer: nat)
    requires AllFit(c, rs)
    ensures AllFit(c, ApplyDeath(c, rs, tick, victim, killer))
  {
    var known := Ensure(c, rs, victim);
    var fallen := known[victim := Fallen(c, known[victim], tick)];
    assert AllFit(c, known) && AllFit(c, fallen);
  }

  lemma {:induction false} DeathsKeepBudgets(c: Config, rs: Records, tick: nat, deaths: seq<Combat.Death>, victims: seq<nat>)
    requires AllFit(c, rs) && forall v :: v in victims ==> v in Combat.Victims(deaths)
    ensures AllFit(c, ApplyDeaths(c, rs, tick, deaths, victims))
  {
    hide Credited, AllFit, ApplyDeath;
    if victims != [] {
      var last := victims[|victims| - 1];
      DeathsKeepBudgets(c, rs, tick, deaths, victims[..|victims| - 1]);
      DeathKeepsBudgets(c, ApplyDeaths(c, rs, tick, deaths, victims[..|victims| - 1]), tick, last, Credited(deaths, last));
    }
  }

  lemma OpeningKeepsBudgets(c: Config, s: State, i: Input)
    requires Budgeted(c, s)
    ensures Budgeted(c, Opening(c, s, i).0)
  {
    var rs := Gather(c, s.records, i).0;
    GatherIsNews(c, s.records, i);
  }

  lemma TickKeepsBudgets(c: Config, s: State, i: Input)
    requires Budgeted(c, s)
    ensures Budgeted(c, Tick(c, s, i).0)
  {
    OpeningKeepsBudgets(c, s, i);
    var t := Opening(c, s, i).0;
    DeathsKeepBudgets(c, t.records, i.tick, i.deaths, InOrder(Combat.Victims(i.deaths)));
    assert AllFit(c, Returns(Fall(c, t.records, i.tick, i.deaths), i.tick));
  }

  lemma StepKeepsBudgets(c: Config, s: State, e: Event)
    requires Budgeted(c, s)
    ensures Budgeted(c, Step(c, s, e).0)
  {
    if e.TickEvent? { TickKeepsBudgets(c, s, e.input); }
  }

  /**
   * In every state a run reaches, the respawns left are the budget less the deaths, a player is out exactly
   * when it died more often than the budget allows, and nobody who is out waits for a respawn.
   */
  lemma {:induction false} RunsKeepBudgets(c: Config, s: State, events: seq<Event>)
    requires Budgeted(c, s)
    ensures Budgeted(c, Run(c, s, events))
    decreases events
  {
    if events != [] {
      StepKeepsBudgets(c, s, events[0]);
      RunsKeepBudgets(c, Step(c, s, events[0]).0, events[1..]);
    }
  }

  // ---------------------------------------------------------------------------------------------
  // Kills against deaths
  // ---------------------------------------------------------------------------------------------

  ghost function KillTallies(rs: Records): map<nat, nat> { map id | id in rs :: rs[id].kills }

  ghost function DeathTallies(rs: Records): map<nat, nat> { map id | id in rs :: rs[id].deaths }

  ghost function TotalKills(rs: Records): nat { Total(KillTallies(rs)) }

  ghost function TotalDeaths(rs: Records): nat { Total(DeathTallies(rs)) }

  lemma TalliesAfterUpdate(rs: Records, id: nat, r: Record)
    ensures TotalKills(rs[id := r]) == TotalKills(rs) - (if id in rs then rs[id].kills else 0) + r.kills
    ensures TotalDeaths(rs[id := r]) == TotalDeaths(rs) - (if id in rs then rs[id].deaths else 0) + r.deaths
  {
    TotalAfterUpdate(KillTallies(rs), id, r.kills);
    TotalAfterUpdate(DeathTallies(rs), id, r.deaths);
    assert KillTallies(rs[id := r]) == KillTallies(rs)[id := r.kills];
    assert DeathTallies(rs[id := r]) == DeathTallies(rs)[id := r.deaths];
  }

  lemma {:induction false} ZerosAddNothing(m: map<nat, nat>, n: map<nat, nat>)
    requires forall k :: k in m ==> k in n && n[k] == m[k]
    requires forall k :: k in n && k !in m ==> n[k] == 0
    ensures Total(n) == Total(m)
    decreases |n|
  {
    if k :| k in n && k !in m {
      assert |(n - {k}).Keys| < |n.Keys|;
      TotalWithout(n, k);
      ZerosAddNothing(m, n - {k});
    } else {
      assert n == m;
    }
  }

  lemma NewsKeepsTotals(c: Config, rs: Records, t: Records)
    requires OnlyNews(c, rs, t)
    ensures TotalKills(t) == TotalKills(rs) && TotalDeaths(t) == TotalDeaths(rs)
  {
    forall id | id in t ensures SameStanding(Get(rs, id, Newcomer(c)), t[id]) {}
    ZerosAddNothing(KillTallies(rs), KillTallies(t));
    ZerosAddNothing(DeathTallies(rs), DeathTallies(t));
  }

  lemma SeenCounts(c: Config, rs: Records, id: nat)
    ensures TotalKills(Ensure(c, rs, id)) == TotalKills(rs) && TotalDeaths(Ensure(c, rs, id)) == TotalDeaths(rs)
  {
    TalliesAfterUpdate(rs, id, Get(rs, id, Newcomer(c)).(connected := true));
  }

  lemma CreditCounts(c: Config, rs: Records, killer: nat)
    ensures TotalKills(Credit(c, rs, killer)) == TotalKills(rs) + 1 && TotalDeaths(Credit(c, rs, killer)) == TotalDeaths(rs)
  {
    SeenCounts(c, rs, killer);
    var known := Ensure(c, rs, killer);
    TalliesAfterUpdate(known, killer, known[killer].(kills := known[killer].kills + 1));
  }

  /** One death adds one to the deaths and at most one to the kills. */
  lemma DeathCounts(c: Config, rs: Records, tick: nat, victim: nat, killer: nat)
    ensures var t := ApplyDeath(c, rs, tick, victim, killer);
            && TotalDeaths(t) == TotalDeaths(rs) + 1
            && TotalKills(t) == TotalKills(rs) + if killer != 0 && killer != victim then 1 else 0
  {
    SeenCounts(c, rs, victim);
    var known := Ensure(c, rs, victim);
    var fallen := Fallen(c, known[victim], tick);
    TalliesAfterUpdate(known, victim, fallen);
    CreditCounts(c, known[victim := fallen], killer);
  }

  lemma {:induction false} DeathsCount(c: Config, rs: Records, tick: nat, deaths: seq<Combat.Death>, victims: seq<nat>)
    requires forall v :: v in victims ==> v in Combat.Victims(deaths)
    ensures var t := ApplyDeaths(c, rs, tick, deaths, victims);
            && TotalDeaths(t) == TotalDeaths(rs) + |victims|
            && TotalKills(t) <= TotalKills(rs) + |victims|
  {
    hide Credited;
    if victims != [] {
      var last := victims[|victims| - 1];
      DeathsCount(c, rs, tick, deaths, victims[..|victims| - 1]);
      DeathCounts(c, ApplyDeaths(c, rs, tick, deaths, victims[..|victims| - 1]), tick, last, Credited(deaths, last));
    }
  }

  lemma SameTallies(a: Records, b: Records)
    requires a.Keys == b.Keys && forall id :: id in a ==> a[id].kills == b[id].kills && a[id].deaths == b[id].deaths
    ensures TotalKills(a) == TotalKills(b) && TotalDeaths(a) == TotalDeaths(b)
  {
    assert KillTallies(a) == KillTallies(b) && DeathTallies(a) == DeathTallies(b);
  }

  lemma OpeningKeepsTotals(c: Config, s: State, i: Input)
    ensures var t := Opening(c, s, i).0; TotalKills(t.records) == TotalKills(s.records) && TotalDeaths(t.records) == TotalDeaths(s.records)
  {
    hide Gather, Total;
    var rs := Gather(c, s.records, i).0;
    GatherIsNews(c, s.records, i);
    NewsKeepsTotals(c, s.records, rs);
    SameTallies(rs, Opening(c, s, i).0.records);
  }

  lemma FightCounts(c: Config, rs: Records, tick: nat, deaths: seq<Combat.Death>)
    ensures var t := Returns(Fall(c, rs, tick, deaths), tick);
            && TotalDeaths(t) == TotalDeaths(rs) + |Combat.Victims(deaths)|
            && TotalKills(t) <= TotalKills(rs) + |Combat.Victims(deaths)|
  {
    hide Total, Credited;
    DeathsCount(c, rs, tick, deaths, InOrder(Combat.Victims(deaths)));
    var fallen := Fall(c, rs, tick, deaths);
    SameTallies(fallen, Returns(fallen, tick));
  }

  /** A tick of an ongoing match adds one death per victim on the list, however often it lists one. */
  lemma TickCountsDeaths(c: Config, s: State, i: Input)
    ensures var t := Tick(c, s, i).0;
            var listed := if Opening(c, s, i).0.phase == InMatch then |Combat.Victims(i.deaths)| else 0;
            && TotalDeaths(t.records) == TotalDeaths(s.records) + listed
            && TotalKills(t.records) <= TotalKills(s.records) + listed
  {
    OpeningKeepsTotals(c, s, i);
    FightCounts(c, Opening(c, s, i).0.records, i.tick, i.deaths);
  }

  lemma {:induction false} AllZero(m: map<nat, nat>)
    requires forall k :: k in m ==> m[k] == 0
    ensures Total(m) == 0
  {
    ZerosAddNothing(map[], m);
  }

  lemma StepKeepsKillsWithinDeaths(c: Config, s: State, e: Event)
    requires TotalKills(s.records) <= TotalDeaths(s.records)
    ensures TotalKills(Step(c, s, e).0.records) <= TotalDeaths(Step(c, s, e).0.records)
  {
    match e
    case Join(id) => NewsKeepsTotals(c, s.records, Ensure(c, s.records, id));
    case Leave(id) => SameTallies(s.records, Removed(s.records, id));
    case Reset => AllZero(KillTallies(Wiped(c, s).records));
    case TickEvent(i) => TickCountsDeaths(c, s, i);
  }

  /** No run credits more kills than it counts deaths. */
  lemma {:induction false} KillsNeverExceedDeaths(c: Config, s: State, events: seq<Event>)
    requires TotalKills(s.records) <= TotalDeaths(s.records)
    ensures var t := Run(c, s, events); TotalKills(t.records) <= TotalDeaths(t.records)
    decreases events
  {
    if events != [] {
      StepKeepsKillsWithinDeaths(c, s, events[0]);
      KillsNeverExceedDeaths(c, Step(c, s, events[0]).0, events[1..]);
    }
  }

  // ---------------------------------------------------------------------------------------------
  // The clock
  // ---------------------------------------------------------------------------------------------

  /** The clock of an ongoing match shows exactly the nanoseconds it has run, with a second or more to go. */
  ghost predicate Shows(c: Config, s: State, elapsed: nat) {
    && 1 <= s.seconds <= c.duration
    && s.acc < NANOS_PER_SECOND
    && (c.duration - s.seconds) * NANOS_PER_SECOND + s.acc == elapsed
  }

  /** The clock runs out in exactly the tick that completes the duration, and is right until then. */
  lemma ClockIsExact(c: Config, s: State, elapsed: nat, interval: int)
    requires Shows(c, s, elapsed)
    ensures var (t, expired) := Clock(s, interval);
            var now := elapsed + Max(0, interval);
            && (expired <==> now >= c.duration * NANOS_PER_SECOND)
            && (!expired ==> Shows(c, t, now))
  {
    if interval > 0 {
      var total := s.acc + interval;
      var filled := total / NANOS_PER_SECOND;
      assert total == filled * NANOS_PER_SECOND + total % NANOS_PER_SECOND;
    }
  }

  /** The nanoseconds a match has run, from its opening tick on. */
  ghost function Elapsed(c: Config, s: State, elapsed: nat, e: Event): nat {
    if s.phase == InMatch && e.TickEvent? then elapsed + Max(0, e.input.interval) else if s.phase == InMatch then elapsed else 0
  }

  ghost function ElapsedOver(c: Config, s: State, elapsed: nat, events: seq<Event>): nat
    decreases events
  {
    if events == [] then elapsed else ElapsedOver(c, Step(c, s, events[0]).0, Elapsed(c, s, elapsed, events[0]), events[1..])
  }

  ghost predicate ClockRight(c: Config, s: State, elapsed: nat) {
    s.phase == InMatch ==> Shows(c, s, elapsed)
  }

  lemma OngoingTick(c: Config, s: State, i: Input)
    requires s.phase == InMatch
    ensures var (t, expired) := Clock(s, i.interval);
            Tick(c, s, i).0.phase == InMatch ==> !expired && Tick(c, s, i).0.seconds == t.seconds && Tick(c, s, i).0.acc == t.acc
  {
    var t := Opening(c, s, i).0;
    assert t.seconds == Clock(s, i.interval).0.seconds && t.acc == Clock(s, i.interval).0.acc;
  }

  lemma StepKeepsClock(c: Config, s: State, elapsed: nat, e: Event)
    requires Sane(c) && ClockRight(c, s, elapsed)
    ensures ClockRight(c, Step(c, s, e).0, Elapsed(c, s, elapsed, e))
  {
    if e.TickEvent? && s.phase == InMatch {
      ClockIsExact(c, s, elapsed, e.input.interval);
      OngoingTick(c, s, e.input);
    }
  }

  /** Over any run, an ongoing match's seconds and accumulator add up to the time it has run. */
  lemma {:induction false} ClockMatchesElapsed(c: Config, s: State, elapsed: nat, events: seq<Event>)
    requires Sane(c) && ClockRight(c, s, elapsed)
    ensures ClockRight(c, Run(c, s, events), ElapsedOver(c, s, elapsed, events))
    decreases events
  {
    if events != [] {
      StepKeepsClock(c, s, elapsed, events[0]);
      ClockMatchesElapsed(c, Step(c, s, events[0]).0, Elapsed(c, s, elapsed, events[0]), events[1..]);
    }
  }

  /** Ticks at least `delta` long, with players coming and going in between, and no reset. */
  ghost predicate SteadyTicks(events: seq<Event>, delta: nat) {
    forall e :: e in events ==> !e.Reset? && (e.TickEvent? ==> e.input.interval >= delta)
  }

  function TickCount(events: seq<Event>): nat
    decreases events
  {
    if events == [] then 0 else (if events[0].TickEvent? then 1 else 0) + TickCount(events[1..])
  }

  function Times(n: nat, delta: nat): nat { if n == 0 then 0 else Times(n - 1, delta) + delta }

  lemma {:induction false} TimesIsProduct(n: nat, delta: nat)
    ensures Times(n, delta) == n * delta
  {
    if n > 0 {
      TimesIsProduct(n - 1, delta);
      assert n * delta == (n - 1) * delta + delta;
    }
  }

  lemma SteadyStep(c: Config, s: State, elapsed: nat, e: Event, delta: nat) returns (t: State, now: nat)
    requires Sane(c) && s.phase == InMatch && Shows(c, s, elapsed) && !e.Reset? && (e.TickEvent? ==> e.input.interval >= delta)
    ensures t == Step(c, s, e).0 && now >= elapsed + if e.TickEvent? then delta else 0
    ensures t.phase == InMatch ==> Shows(c, t, now)
    ensures t.phase != InMatch ==> t.phase == PostMatch
  {
    t, now := Step(c, s, e).0, Elapsed(c, s, elapsed, e);
    StepKeepsClock(c, s, elapsed, e);
    if e.TickEvent? { TickMovesForward(c, s, e.input); }
  }

  lemma {:induction false} SteadyMatchEnds(c: Config, s: State, elapsed: nat, events: seq<Event>, delta: nat)
    requires Sane(c) && s.phase == InMatch && Shows(c, s, elapsed) && SteadyTicks(events, delta)
    requires elapsed + Times(TickCount(events), delta) >= c.duration * NANOS_PER_SECOND
    ensures Run(c, s, events).phase == PostMatch
    decreases events
  {
    if events != [] {
      assert events[0] in events && (forall e :: e in events[1..] ==> e in events);
      var t, now := SteadyStep(c, s, elapsed, events[0], delta);
      if t.phase == InMatch {
        SteadyMatchEnds(c, t, now, events[1..], delta);
      } else {
        PhasesOnlyForward(c, t, events[1..]);
      }
    }
  }

  /**
   * Whoever joins or leaves meanwhile, the match is over once its ticks add up to its duration: with ticks at least
   * `delta` long, within ceil(duration / delta) of them.
   */
  lemma MatchEndsInTime(c: Config, s: State, events: seq<Event>, delta: nat)
    requires Sane(c) && s.phase == InMatch && Shows(c, s, 0) && SteadyTicks(events, delta)
    requires TickCount(events) * delta >= c.duration * NANOS_PER_SECOND
    ensures Run(c, s, events).phase == PostMatch
  {
    TimesIsProduct(TickCount(events), delta);
    SteadyMatchEnds(c, s, 0, events, delta);
  }

  // ---------------------------------------------------------------------------------------------
  // Phases
  // ---------------------------------------------------------------------------------------------

  function Rank(p: Phase): nat {
    match p case PreMatch => 0 case InMatch => 1 case PostMatch => 2
  }

  ghost predicate NoReset(events: seq<Event>) { forall e :: e in events ==> !e.Reset? }

  lemma TickMovesForward(c: Config, s: State, i: Input)
    ensures Rank(s.phase) <= Rank(Tick(c, s, i).0.phase)
  {
  }

  /** Until a reset, phases are only passed in order. */
  lemma {:induction false} PhasesOnlyForward(c: Config, s: State, events: seq<Event>)
    requires NoReset(events)
    ensures Rank(s.phase) <= Rank(Run(c, s, events).phase)
    decreases events
  {
    if events != [] {
      assert events[0] in events;
      if events[0].TickEvent? { TickMovesForward(c, s, events[0].input); }
      assert Rank(s.phase) <= Rank(Step(c, s, events[0]).0.phase);
      assert NoReset(events[1..]) by { forall e | e in events[1..] ensures !e.Reset? { assert e in events; } }
      PhasesOnlyForward(c, Step(c, s, events[0]).0, events[1..]);
    }
  }

  /** What the end of a match fixes. */
  ghost predicate Final(a: State, b: State) {
    && b.phase == PostMatch && b.winner == a.winner && b.startedTick == a.startedTick
    && (forall id :: id in a.records ==> id in b.records && SameResult(a.records[id], b.records[id]))
  }

  ghost predicate SameResult(a: Record, b: Record) {
    a.kills == b.kills && a.deaths == b.deaths && a.respawns == b.respawns && a.eliminated == b.eliminated
  }

  lemma StepKeepsResult(c: Config, s: State, e: Event)
    requires s.phase == PostMatch && !e.Reset?
    ensures Final(s, Step(c, s, e).0)
  {
    if e.TickEvent? {
      var t := Gather(c, s.records, e.input).0;
      GatherIsNews(c, s.records, e.input);
      forall id | id in s.records ensures id in t && SameResult(s.records[id], t[id]) {
        assert SameStanding(Get(s.records, id, Newcomer(c)), t[id]);
      }
    }
  }

  /** After the match nothing that decided it changes until a reset. */
  lemma {:induction false} ResultIsFinal(c: Config, s: State, events: seq<Event>)
    requires s.phase == PostMatch && NoReset(events)
    ensures Final(s, Run(c, s, events))
    decreases events
  {
    if events != [] {
      assert events[0] in events;
      var t := Step(c, s, events[0]).0;
      StepKeepsResult(c, s, events[0]);
      assert NoReset(events[1..]) by { forall e | e in events[1..] ensures !e.Reset? { assert e in events; } }
      ResultIsFinal(c, t, events[1..]);
    }
  }

  // ---------------------------------------------------------------------------------------------
  // The end of a match
  // ---------------------------------------------------------------------------------------------

  /** The one connected player who is not out. */
  ghost predicate LastStanding(rs: Records, id: nat) {
    id in Contenders(rs) && forall o :: o in Contenders(rs) ==> o == id
  }

  lemma OnlyOne<T>(s: set<T>, x: T)
    requires x in s
    ensures |s| == 1 <==> forall y :: y in s ==> y == x
  {
    if |s| == 1 {
      assert |s - {x}| == 0;
      forall y | y in s ensures y == x { assert y !in s - {x}; }
    }
    if forall y :: y in s ==> y == x { assert s == {x}; }
  }

  lemma Standing(rs: Records)
    ensures |Contenders(rs)| == 1 <==> exists id :: LastStanding(rs, id)
    ensures |Contenders(rs)| == 1 ==> LastStanding(rs, Least(Contenders(rs)))
  {
    var left := Contenders(rs);
    forall id | LastStanding(rs, id) ensures |left| == 1 { OnlyOne(left, id); }
    if |left| == 1 {
      OnlyOne(left, Least(left));
      assert LastStanding(rs, Least(left));
    }
  }

  /**
   * When a tick leaves the match over: either somebody is the last one standing and has won, or the time is up and
   * the winner ranks before everybody else. While a tick leaves it going, neither was the case.
   */
  lemma EndIsDecided(c: Config, s: State, i: Input)
    requires s.phase != PostMatch && Opening(c, s, i).0.phase == InMatch
    ensures var t := Tick(c, s, i).0;
            var expired := Opening(c, s, i).2;
            && (t.phase == PostMatch <==> expired || exists id :: LastStanding(t.records, id))
            && (t.phase == PostMatch && (exists id :: LastStanding(t.records, id)) ==>
                  t.winner.Some? && LastStanding(t.records, t.winner.value))
            && (t.phase == PostMatch && !(exists id :: LastStanding(t.records, id)) ==>
                  t.winner == Leader(t.records))
  {
    Standing(Tick(c, s, i).0.records);
  }

  /** Who gets credited for one of these victims, and so is on record and counted as connected. */
  ghost function Claimants(deaths: seq<Combat.Death>, victims: set<nat>): set<nat>
    requires victims <= Combat.Victims(deaths)
  {
    set v | v in victims && Credited(deaths, v) != 0 && Credited(deaths, v) != v :: Credited(deaths, v)
  }

  /** Those left to contend when these deaths meet freshly readied records: victims are out if there are no respawns. */
  ghost function Staying(c: Config, rs: Records, deaths: seq<Combat.Death>): set<nat> {
    var victims := Combat.Victims(deaths);
    Connected(rs) + Claimants(deaths, victims) + victims - if c.budget == 0 then victims else {}
  }

  /** Nobody has died yet: full budgets, nobody out. */
  ghost predicate Fresh(c: Config, rs: Records) { forall id :: id in rs ==> rs[id].respawns == c.budget && !rs[id].eliminated }

  /** Only these are down, and they are out exactly without a budget. */
  ghost predicate OnlyOut(c: Config, t: Records, victims: set<nat>) {
    && victims <= t.Keys
    && (forall id :: id in t && id in victims ==> (t[id].eliminated <==> c.budget == 0))
    && (forall id :: id in t && id !in victims ==> t[id].respawns == c.budget && !t[id].eliminated)
  }

  lemma OneOut(c: Config, rs: Records, tick: nat, done: set<nat>, v: nat, killer: nat)
    requires OnlyOut(c, rs, done) && v !in done
    ensures var t := ApplyDeath(c, rs, tick, v, killer);
            && OnlyOut(c, t, done + {v})
            && Connected(t) == Connected(rs) + {v} + (if killer != 0 && killer != v then {killer} else {})
  {
    var known := Ensure(c, rs, v);
    var fallen := known[v := Fallen(c, known[v], tick)];
    assert OnlyOut(c, known, done) && Connected(known) == Connected(rs) + {v};
    assert OnlyOut(c, fallen, done + {v}) && Connected(fallen) == Connected(known);
    if killer != 0 && killer != v {
      assert Connected(Credit(c, fallen, killer)) == Connected(fallen) + {killer};
    }
  }

  lemma {:induction false} DeathsPutOut(c: Config, rs: Records, tick: nat, deaths: seq<Combat.Death>, victims: seq<nat>, out: set<nat>)
    requires Fresh(c, rs) && Ascending(victims) && (forall v :: v in victims <==> v in out) && out <= Combat.Victims(deaths)
    ensures var t := ApplyDeaths(c, rs, tick, deaths, victims);
            OnlyOut(c, t, out) && Connected(t) == Connected(rs) + Claimants(deaths, out) + out
  {
    if victims == [] {
      assert out == {};
    } else {
      var n := |victims| - 1;
      var v := victims[n];
      var done := out - {v};
      WithoutLast(victims, out);
      DeathsPutOut(c, rs, tick, deaths, victims[..n], done);
      assert out == done + {v};
      hide Credited, ApplyDeath, OnlyOut, Claimants, Connected, Ascending;
      OneOut(c, ApplyDeaths(c, rs, tick, deaths, victims[..n]), tick, done, v, Credited(deaths, v));
      OneMoreClaimant(deaths, done, v);
    }
  }

  lemma WithoutLast(ids: seq<nat>, all: set<nat>)
    requires Ascending(ids) && ids != [] && forall v :: v in ids <==> v in all
    ensures var n := |ids| - 1; Ascending(ids[..n]) && forall v :: v in ids[..n] <==> v in all - {ids[n]}
  {
    var n := |ids| - 1;
    assert ids == ids[..n] + [ids[n]];
  }

  lemma OneMoreClaimant(deaths: seq<Combat.Death>, done: set<nat>, v: nat)
    requires done <= Combat.Victims(deaths) && v in Combat.Victims(deaths)
    ensures Claimants(deaths, done + {v}) ==
            Claimants(deaths, done) + if Credited(deaths, v) != 0 && Credited(deaths, v) != v then {Credited(deaths, v)} else {}
  {
    hide Credited;
  }

  lemma FreshContenders(c: Config, rs: Records, tick: nat, deaths: seq<Combat.Death>)
    requires Fresh(c, rs)
    ensures Contenders(Returns(Fall(c, rs, tick, deaths), tick)) == Staying(c, rs, deaths)
  {
    hide Credited, Claimants, ApplyDeaths, InOrder;
    var victims := Combat.Victims(deaths);
    DeathsPutOut(c, rs, tick, deaths, InOrder(victims), victims);
    var t := Fall(c, rs, tick, deaths);
    assert Connected(t) == Connected(rs) + Claimants(deaths, victims) + victims;
    assert Contenders(Returns(t, tick)) == Contenders(t);
    assert Contenders(t) == Connected(t) - if c.budget == 0 then victims else {};
  }

  /** Readying the records for a match changes nobody's connection. */
  lemma OpenedRecords(c: Config, s: State, i: Input)
    requires Sane(c) && s.phase == PreMatch
    ensures var rs, t := Gather(c, s.records, i).0, Opening(c, s, i);
            && !t.2
            && (t.0.phase == InMatch <==> s.preTicks <= 1 && |Connected(rs)| >= c.minPlayers)
            && t.0.phase != PostMatch
            && (t.0.phase == InMatch ==> Fresh(c, t.0.records) && Connected(t.0.records) == Connected(rs))
  {
    hide Gather;
  }

  /**
   * Whether a match is over in the very tick that could open it can be told beforehand: the countdown ends, enough
   * players are connected, and one player only is left once the tick's deaths are counted, who wins.
   */
  lemma OpeningTickDecides(c: Config, s: State, i: Input)
    requires Sane(c) && s.phase == PreMatch
    ensures var rs, t := Gather(c, s.records, i).0, Tick(c, s, i).0;
            && (t.phase == PostMatch <==>
                  s.preTicks <= 1 && |Connected(rs)| >= c.minPlayers && |Staying(c, rs, i.deaths)| == 1)
            && (t.phase == PostMatch ==> t.winner == Some(Least(Staying(c, rs, i.deaths))))
  {
    OpenedRecords(c, s, i);
    var t := Opening(c, s, i).0;
    hide Gather, Staying, Returns, Fall;
    if t.phase == InMatch {
      FreshContenders(c, t.records, i.tick, i.deaths);
      SameStaying(c, t.records, Gather(c, s.records, i).0, i.deaths);
    }
  }

  lemma SameStaying(c: Config, a: Records, b: Records, deaths: seq<Combat.Death>)
    requires Connected(a) == Connected(b)
    ensures Staying(c, a, deaths) == Staying(c, b, deaths)
  {
  }

  /** In particular, without deaths: a match that could open is over at once exactly when one player is connected, who wins. */
  lemma LonePlayerWinsAtOnce(c: Config, s: State, i: Input)
    requires Sane(c) && s.phase == PreMatch && s.preTicks <= 1 && i.deaths == []
    requires |Connected(Gather(c, s.records, i).0)| >= c.minPlayers
    ensures var here, t := Connected(Gather(c, s.records, i).0), Tick(c, s, i).0;
            && (t.phase == PostMatch <==> |here| == 1)
            && (t.phase == PostMatch ==> t.winner == Some(Least(here)) && t.startedTick == i.tick)
  {
    hide Gather, Tick;
    OpeningTickDecides(c, s, i);
    assert Combat.Victims(i.deaths) == {};
    assert Claimants(i.deaths, {}) == {};
    assert Staying(c, Gather(c, s.records, i).0, i.deaths) == Connected(Gather(c, s.records, i).0);
    StampedWhenEntered(c, s, i);
  }

  lemma StampedWhenEntered(c: Config, s: State, i: Input)
    ensures Tick(c, s, i).0.phase != s.phase ==> Tick(c, s, i).0.startedTick == i.tick
  {
    hide Gather, Fall, Returns;
  }

  // ---------------------------------------------------------------------------------------------
  // The order of the death list
  // ---------------------------------------------------------------------------------------------

  /** Only which deaths are listed matters to a tick, not in which order or how often. */
  lemma DeathOrderDoesNotMatter(c: Config, s: State, i: Input, deaths: seq<Combat.Death>)
    requires forall d :: d in deaths <==> d in i.deaths
    ensures Tick(c, s, i.(deaths := deaths)) == Tick(c, s, i)
  {
    var t := Opening(c, s, i).0;
    assert Opening(c, s, i.(deaths := deaths)) == Opening(c, s, i);
    assert Combat.Victims(deaths) == Combat.Victims(i.deaths);
    SameDeaths(c, t.records, i.tick, deaths, i.deaths, InOrder(Combat.Victims(deaths)));
    assert deaths == [] <==> i.deaths == [] by {
      assert deaths != [] ==> deaths[0] in i.deaths;
      assert i.deaths != [] ==> i.deaths[0] in deaths;
    }
  }

  lemma {:induction false} SameDeaths(c: Config, rs: Records, tick: nat, a: seq<Combat.Death>, b: seq<Combat.Death>, victims: seq<nat>)
    requires forall d :: d in a <==> d in b
    requires forall v :: v in victims ==> v in Combat.Victims(a) && v in Combat.Victims(b)
    ensures ApplyDeaths(c, rs, tick, a, victims) == ApplyDeaths(c, rs, tick, b, victims)
  {
    if victims != [] {
      var last := victims[|victims| - 1];
      SameDeaths(c, rs, tick, a, b, victims[..|victims| - 1]);
      assert Killers(a, last) == Killers(b, last);
    }
  }

  // ---------------------------------------------------------------------------------------------
  // When a respawn fires
  // ---------------------------------------------------------------------------------------------

  /** Being credited with a kill, or being newly seen, leaves a player's own fate alone. */
  ghost predicate SameFate(a: Record, b: Record) {
    a.deaths == b.deaths && a.respawns == b.respawns && a.alive == b.alive && a.eliminated == b.eliminated && a.pending == b.pending
  }

  lemma {:induction false} BystandersKeepFate(c: Config, rs: Records, tick: nat, deaths: seq<Combat.Death>, victims: seq<nat>, p: nat)
    requires p in rs && p !in victims && forall v :: v in victims ==> v in Combat.Victims(deaths)
    ensures var t := ApplyDeaths(c, rs, tick, deaths, victims); p in t && SameFate(rs[p], t[p])
  {
    hide Credited;
    if victims != [] { BystandersKeepFate(c, rs, tick, deaths, victims[..|victims| - 1], p); }
  }

  /** Whoever comes on record by being credited comes as a newcomer. */
  lemma {:induction false} StrangersAreNewcomers(c: Config, rs: Records, tick: nat, deaths: seq<Combat.Death>, victims: seq<nat>, p: nat)
    requires p !in rs && p !in victims && forall v :: v in victims ==> v in Combat.Victims(deaths)
    ensures var t := ApplyDeaths(c, rs, tick, deaths, victims); p in t ==> SameFate(Newcomer(c), t[p])
  {
    hide Credited;
    if victims != [] { StrangersAreNewcomers(c, rs, tick, deaths, victims[..|victims| - 1], p); }
  }

  lemma {:induction false} VictimFallsOnce(c: Config, rs: Records, tick: nat, deaths: seq<Combat.Death>, victims: seq<nat>, p: nat)
    requires p in victims && p in rs && forall v :: v in victims ==> v in Combat.Victims(deaths)
    requires forall i, j :: 0 <= i < j < |victims| ==> victims[i] != victims[j]
    ensures var t := ApplyDeaths(c, rs, tick, deaths, victims); p in t && SameFate(Fallen(c, rs[p], tick), t[p])
  {
    hide Credited;
    var n := |victims| - 1;
    if victims[n] == p {
      BystandersKeepFate(c, rs, tick, deaths, victims[..n], p);
    } else {
      assert p in victims[..n];
      VictimFallsOnce(c, rs, tick, deaths, victims[..n], p);
    }
  }

  lemma OpeningKeepsWaiting(c: Config, s: State, i: Input, p: nat)
    requires s.phase != PreMatch && p in s.records
    ensures var t := Opening(c, s, i).0; p in t.records && SameStanding(s.records[p], t.records[p])
  {
    GatherIsNews(c, s.records, i);
    assert SameStanding(Get(s.records, p, Newcomer(c)), Gather(c, s.records, i).0[p]);
  }

  /** What becomes of p in a tick of an ongoing match, given what the deaths made of it. */
  lemma FightDecides(c: Config, s: State, i: Input, p: nat)
    requires Opening(c, s, i).0.phase == InMatch && p in Fall(c, Opening(c, s, i).0.records, i.tick, i.deaths)
    ensures var (t, out) := Tick(c, s, i);
            var r := Fall(c, Opening(c, s, i).0.records, i.tick, i.deaths)[p];
            p in t.records && t.records[p] == Returned(r, i.tick) && (p in out.respawned <==> IsDue(r, i.tick) && !r.eliminated)
  {
  }

  /** A player waiting for its respawn and not dying again returns in the first tick that reaches it, not before. */
  lemma WaitingTick(c: Config, s: State, i: Input, p: nat, due: nat)
    requires s.phase == InMatch && Budgeted(c, s) && p in s.records && s.records[p].pending == Some(due)
    requires p !in Combat.Victims(i.deaths)
    ensures var (t, out) := Tick(c, s, i);
            && p in t.records
            && (p in out.respawned <==> due <= i.tick)
            && t.records[p].pending == (if due <= i.tick then None else Some(due))
            && (due <= i.tick ==> t.records[p].alive)
  {
    OpeningKeepsWaiting(c, s, i, p);
    FallDecides(c, Opening(c, s, i).0.records, i.tick, i.deaths, p);
    FightDecides(c, s, i, p);
  }

  lemma FallDecides(c: Config, rs: Records, tick: nat, deaths: seq<Combat.Death>, p: nat)
    requires p in rs
    ensures var t := Fall(c, rs, tick, deaths);
            p in t && SameFate(if p in Combat.Victims(deaths) then Fallen(c, rs[p], tick) else rs[p], t[p])
  {
    var victims := InOrder(Combat.Victims(deaths));
    if p in victims {
      VictimFallsOnce(c, rs, tick, deaths, victims, p);
    } else {
      BystandersKeepFate(c, rs, tick, deaths, victims, p);
    }
  }

  lemma DeathMakesWait(c: Config, a: Record, b: Record, r: Record, tick: nat)
    requires Sane(c) && Fit(c, a) && a.deaths < c.budget && SameStanding(a, b) && SameFate(Fallen(c, b, tick), r)
    ensures r.deaths == a.deaths + 1 && !r.alive && r.pending == Some(tick + c.respawnDelay)
    ensures Returned(r, tick) == r && !IsDue(r, tick)
  {
  }

  /** A death with budget left books the respawn exactly the delay ahead, and the victim does not return in that tick. */
  lemma DeathBooksRespawn(c: Config, s: State, i: Input, p: nat)
    requires Sane(c) && s.phase == InMatch && Budgeted(c, s) && p in s.records && s.records[p].deaths < c.budget
    requires p in Combat.Victims(i.deaths)
    ensures var (t, out) := Tick(c, s, i);
            && p in t.records && !t.records[p].alive && t.records[p].deaths == s.records[p].deaths + 1
            && t.records[p].pending == Some(i.tick + c.respawnDelay) && p !in out.respawned
  {
    OpeningKeepsWaiting(c, s, i, p);
    var t := Opening(c, s, i).0.records;
    FallDecides(c, t, i.tick, i.deaths, p);
    DeathMakesWait(c, s.records[p], t[p], Fall(c, t, i.tick, i.deaths)[p], i.tick);
    FightDecides(c, s, i, p);
  }

  lemma NobodyWaitingStays(c: Config, s: State, i: Input, p: nat)
    requires s.phase == InMatch && p in s.records && s.records[p].pending == None && p !in Combat.Victims(i.deaths)
    ensures var (t, out) := Tick(c, s, i); p in t.records && p !in out.respawned && t.records[p].pending == None
  {
    OpeningKeepsWaiting(c, s, i, p);
    FallDecides(c, Opening(c, s, i).0.records, i.tick, i.deaths, p);
    FightDecides(c, s, i, p);
  }

  /** An event that leaves p alone: it does not leave or die, no reset, and the match goes on in tick `last` + 1. */
  ghost predicate LeavesAlone(s: State, e: Event, p: nat, last: nat) {
    match e
    case Join(_) => true
    case Leave(q) => q != p
    case Reset => false
    case TickEvent(i) => s.phase == InMatch && i.tick == last + 1 && p !in Combat.Victims(i.deaths)
  }

  function After(last: nat, e: Event): nat { if e.TickEvent? then last + 1 else last }

  /** The match goes on through consecutive ticks after `last`, and p neither leaves nor dies. */
  ghost predicate Undisturbed(c: Config, s: State, events: seq<Event>, p: nat, last: nat)
    decreases events
  {
    events == [] ||
    (LeavesAlone(s, events[0], p, last) && Undisturbed(c, Step(c, s, events[0]).0, events[1..], p, After(last, events[0])))
  }

  ghost function LastTick(events: seq<Event>, last: nat): nat
    decreases events
  {
    if events == [] then last else LastTick(events[1..], After(last, events[0]))
  }

  ghost function Revived(c: Config, s: State, e: Event, p: nat): seq<nat> {
    if e.TickEvent? && p in Step(c, s, e).1.respawned then [e.input.tick] else []
  }

  /** The ticks that report p back. */
  ghost function Revivals(c: Config, s: State, events: seq<Event>, p: nat): seq<nat>
    decreases events
  {
    if events == [] then [] else Revived(c, s, events[0], p) + Revivals(c, Step(c, s, events[0]).0, events[1..], p)
  }

  lemma {:induction false} LastTickGrows(events: seq<Event>, last: nat)
    ensures LastTick(events, last) >= last
    decreases events
  {
    if events != [] { LastTickGrows(events[1..], After(last, events[0])); }
  }

  lemma QuietStep(c: Config, s: State, e: Event, p: nat, last: nat)
    requires LeavesAlone(s, e, p, last) && p in s.records && s.records[p].pending == None
    ensures var t := Step(c, s, e).0; p in t.records && t.records[p].pending == None
    ensures Revived(c, s, e, p) == []
  {
    if e.TickEvent? { NobodyWaitingStays(c, s, e.input, p); }
  }

  lemma {:induction false} NoRevivalWithoutDeath(c: Config, s: State, events: seq<Event>, p: nat, last: nat)
    requires Undisturbed(c, s, events, p, last) && p in s.records && s.records[p].pending == None
    ensures Revivals(c, s, events, p) == []
    decreases events
  {
    if events != [] {
      QuietStep(c, s, events[0], p, last);
      NoRevivalWithoutDeath(c, Step(c, s, events[0]).0, events[1..], p, After(last, events[0]));
    }
  }

  lemma WaitingTickEvent(c: Config, s: State, i: Input, p: nat, due: nat)
    requires 0 < i.tick <= due
    requires Budgeted(c, s) && LeavesAlone(s, TickEvent(i), p, i.tick - 1) && p in s.records && s.records[p].pending == Some(due)
    ensures var t := Step(c, s, TickEvent(i)).0;
            && Budgeted(c, t) && p in t.records
            && t.records[p].pending == if due <= i.tick then None else Some(due)
    ensures Revived(c, s, TickEvent(i), p) == if due <= i.tick then [due] else []
  {
    TickKeepsBudgets(c, s, i);
    WaitingTick(c, s, i, p, due);
  }

  lemma WaitingStep(c: Config, s: State, e: Event, p: nat, last: nat, due: nat)
    requires Budgeted(c, s) && LeavesAlone(s, e, p, last) && p in s.records && s.records[p].pending == Some(due) && last < due
    ensures var t := Step(c, s, e).0;
            && Budgeted(c, t) && p in t.records
            && t.records[p].pending == if due <= After(last, e) then None else Some(due)
    ensures Revived(c, s, e, p) == if due <= After(last, e) then [due] else []
  {
    if e.TickEvent? {
      WaitingTickEvent(c, s, e.input, p, due);
    }
  }

  /** On consecutive ticks a booked respawn fires exactly once, exactly in the tick it is booked for. */
  lemma {:induction false} RespawnFiresOnTime(c: Config, s: State, events: seq<Event>, p: nat, last: nat, due: nat)
    requires Budgeted(c, s) && Undisturbed(c, s, events, p, last)
    requires p in s.records && s.records[p].pending == Some(due) && last < due
    ensures Revivals(c, s, events, p) == if due <= LastTick(events, last) then [due] else []
    decreases events
  {
    if events != [] {
      var t := Step(c, s, events[0]).0;
      WaitingStep(c, s, events[0], p, last, due);
      if due <= After(last, events[0]) {
        NoRevivalWithoutDeath(c, t, events[1..], p, After(last, events[0]));
        LastTickGrows(events[1..], After(last, events[0]));
      } else {
        RespawnFiresOnTime(c, t, events[1..], p, After(last, events[0]), due);
      }
    }
  }

  // ---------------------------------------------------------------------------------------------
  // From the beginning
  // ---------------------------------------------------------------------------------------------

  lemma TickKeepsDeaths(c: Config, s: State, i: Input, p: nat)
    requires s.phase != PreMatch && p in s.records
    ensures var t := Tick(c, s, i).0; p in t.records && t.records[p].deaths >= s.records[p].deaths
  {
    OpeningKeepsWaiting(c, s, i, p);
    if s.phase == InMatch {
      FallDecides(c, Opening(c, s, i).0.records, i.tick, i.deaths, p);
      FightDecides(c, s, i, p);
    }
  }

  lemma StepKeepsOut(c: Config, s: State, e: Event, p: nat)
    requires Budgeted(c, s) && !e.Reset? && p in s.records && s.records[p].eliminated
    ensures var t := Step(c, s, e).0; Budgeted(c, t) && p in t.records && t.records[p].eliminated
  {
    StepKeepsBudgets(c, s, e);
    assert Fit(c, s.records[p]);
    if e.TickEvent? {
      TickKeepsDeaths(c, s, e.input, p);
      assert Fit(c, Tick(c, s, e.input).0.records[p]);
    }
  }

  /** Who is out stays out until a reset. */
  lemma {:induction false} EliminationIsPermanent(c: Config, s: State, events: seq<Event>, p: nat)
    requires Budgeted(c, s) && NoReset(events) && p in s.records && s.records[p].eliminated
    ensures var t := Run(c, s, events); p in t.records && t.records[p].eliminated
    decreases events
  {
    if events != [] {
      assert events[0] in events && (forall e :: e in events[1..] ==> e in events);
      StepKeepsOut(c, s, events[0], p);
      EliminationIsPermanent(c, Step(c, s, events[0]).0, events[1..], p);
    }
  }

  /** Every state a server can reach from its start. */
  lemma RunsFromTheStart(c: Config, events: seq<Event>)
    requires Sane(c)
    ensures var s := Run(c, Initial(c), events);
            && Budgeted(c, s)
            && TotalKills(s.records) <= TotalDeaths(s.records)
            && ClockRight(c, s, ElapsedOver(c, Initial(c), 0, events))
  {
    RunsKeepBudgets(c, Initial(c), events);
    AllZero(KillTallies(map[]));
    KillsNeverExceedDeaths(c, Initial(c), events);
    ClockMatchesElapsed(c, Initial(c), 0, events);
  }
}
