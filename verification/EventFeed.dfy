/**
 * server/src/CombatEvents.cpp and client/src/AuthoritativeEventFeed.cpp: every hit travels on two
 * streams, and the client reports it once.
 */
module EventFeed {
  import opened Prelude
  import Sorting
  import opened Raycast
  import opened Combat
  import opened CombatInvariants
  import opened CombatRuns

  // ---------------------------------------------------------------------------------------------
  // Server: both streams
  // ---------------------------------------------------------------------------------------------

  datatype SnapshotEvent = DamageEvent(damage: Damage) | DeathEvent(death: Death)

  /** Each damage event goes to the snapshot events and, when there is a reliable list, to that one too. */
  method AppendCombatOutputs(out: Outcome, snapshotEvents: seq<SnapshotEvent>, reliable: Option<seq<Damage>>)
    returns (events: seq<SnapshotEvent>, packets: Option<seq<Damage>>)
    ensures events == snapshotEvents + seq(|out.damages|, i requires 0 <= i < |out.damages| => DamageEvent(out.damages[i]))
                                     + seq(|out.deaths|, i requires 0 <= i < |out.deaths| => DeathEvent(out.deaths[i]))
    ensures packets == if reliable.Some? then Some(reliable.value + out.damages) else None
  {
    events, packets := snapshotEvents, reliable;
    for i := 0 to |out.damages|
      invariant events == snapshotEvents + seq(i, j requires 0 <= j < i => DamageEvent(out.damages[j]))
      invariant packets.Some? <==> reliable.Some?
      invariant packets.Some? ==> packets.value == reliable.value + out.damages[..i]
    {
      events := events + [DamageEvent(out.damages[i])];
      assert out.damages[..i + 1] == out.damages[..i] + [out.damages[i]];
      if packets.Some? {
        packets := Some(packets.value + [out.damages[i]]);
      }
    }
    assert out.damages[..|out.damages|] == out.damages;
    ghost var withDamages := events;
    for i := 0 to |out.deaths|
      invariant events == withDamages + seq(i, j requires 0 <= j < i => DeathEvent(out.deaths[j]))
    {
      events := events + [DeathEvent(out.deaths[i])];
    }
  }

  // ---------------------------------------------------------------------------------------------
  // Client: the feed
  // ---------------------------------------------------------------------------------------------

  const MAX_SIGNATURES := 64

  datatype Signature = Signature(tick: nat, attacker: nat, victim: nat, shotSeq: nat)

  /** A damage payload; a field that is absent or malformed is None. */
  datatype Payload = Payload(attacker: Option<nat>, victim: Option<nat>, damage: Option<int>, shotSeq: Option<nat>, tick: Option<nat>, lethal: bool)

  datatype Message = HitConfirmed(damage: int) | EliminationConfirmed | DamageTaken(damage: int) | YouWereEliminated

  function SignatureOf(p: Payload): Option<Signature> {
    if p.attacker.Some? && p.victim.Some? && p.damage.Some? && p.shotSeq.Some? && p.tick.Some?
    then Some(Signature(p.tick.value, p.attacker.value, p.victim.value, p.shotSeq.value)) else None
  }

  function MessageFor(p: Payload, local: nat): Option<Message> {
    if p.attacker.None? || p.victim.None? || p.damage.None? then None
    else if p.attacker.value == local && p.victim.value != local then
      Some(if p.lethal then EliminationConfirmed else HitConfirmed(p.damage.value))
    else if p.victim.value == local then Some(if p.lethal then YouWereEliminated else DamageTaken(p.damage.value))
    else None
  }

  /** The last 64 signatures that were new. */
  function Remember(recent: seq<Signature>, s: Signature): seq<Signature> {
    var longer := recent + [s];
    if |longer| > MAX_SIGNATURES then longer[1..] else longer
  }

  class AuthoritativeEventFeed {
    var recent: seq<Signature>

    constructor ()
      ensures recent == []
    {
      recent := [];
    }

    method IsDuplicateDamage(s: Signature) returns (known: bool)
      ensures known == (s in recent)
    {
      for i := 0 to |recent|
        invariant s !in recent[..i]
      {
        assert recent[..i + 1] == recent[..i] + [recent[i]];
        if recent[i] == s {
          return true;
        }
      }
      assert recent[..|recent|] == recent;
      return false;
    }

    method RememberDamage(s: Signature)
      modifies this
      ensures recent == Remember(old(recent), s)
    {
      recent := recent + [s];
      if |recent| > MAX_SIGNATURES {
        recent := recent[1..];
      }
    }

    /** Drops a hit it remembers; otherwise remembers it, if it can be told apart, and reports it. */
    method ConsumeDamageEvent(p: Payload, local: nat) returns (message: Option<Message>)
      modifies this
      ensures var s := SignatureOf(p);
              if s.Some? && s.value in old(recent) then message == None && recent == old(recent)
              else message == MessageFor(p, local) && recent == if s.Some? then Remember(old(recent), s.value) else old(recent)
    {
      if p.attacker.None? || p.victim.None? || p.damage.None? {
        return None;
      }
      if p.shotSeq.Some? && p.tick.Some? {
        var s := Signature(p.tick.value, p.attacker.value, p.victim.value, p.shotSeq.value);
        var known := IsDuplicateDamage(s);
        if known {
          return None;
        }
        RememberDamage(s);
      }
      if p.attacker.value == local && p.victim.value != local {
        return Some(if p.lethal then EliminationConfirmed else HitConfirmed(p.damage.value));
      }
      if p.victim.value == local {
        return Some(if p.lethal then YouWereEliminated else DamageTaken(p.damage.value));
      }
      return None;
    }
  }

  /** Of a complete hit the attacker hears that it struck or felled, the victim that it was struck or felled, others nothing. */
  lemma WhoIsToldWhat(p: Payload, local: nat)
    requires p.attacker.Some? && p.victim.Some? && p.damage.Some?
    ensures local == p.victim.value ==>
              MessageFor(p, local) == Some(if p.lethal then YouWereEliminated else DamageTaken(p.damage.value))
    ensures local == p.attacker.value != p.victim.value ==>
              MessageFor(p, local) == Some(if p.lethal then EliminationConfirmed else HitConfirmed(p.damage.value))
    ensures local != p.victim.value && local != p.attacker.value ==> MessageFor(p, local) == None
  {
  }

  // ---------------------------------------------------------------------------------------------
  // A stream of hits
  // ---------------------------------------------------------------------------------------------

  /** What the feed remembers after a stream. */
  function Recent(stream: seq<Signature>): seq<Signature> {
    if stream == [] then []
    else
      var r, s := Recent(stream[..|stream| - 1]), stream[|stream| - 1];
      if s in r then r else Remember(r, s)
  }

  /** The i-th hit of the stream is taken as new. */
  predicate IsNew(stream: seq<Signature>, i: nat)
    requires i < |stream|
  {
    stream[i] !in Recent(stream[..i])
  }

  /** All hits taken as new, in order. */
  function News(stream: seq<Signature>): seq<Signature> {
    if stream == [] then []
    else
      var n := |stream| - 1;
      News(stream[..n]) + if IsNew(stream, n) then [stream[n]] else []
  }

  function NewsBetween(stream: seq<Signature>, i: nat, j: nat): int
    requires i < j <= |stream|
  {
    |News(stream[..j])| - |News(stream[..i + 1])|
  }

  function LastOf<T>(s: seq<T>, n: nat): seq<T> { if |s| > n then s[|s| - n..] else s }

  /** The feed remembers exactly the last 64 hits it took as new. */
  lemma {:induction false} RecentIsLastNews(stream: seq<Signature>)
    ensures Recent(stream) == LastOf(News(stream), 64)
  {
    if stream != [] {
      RecentIsLastNews(stream[..|stream| - 1]);
    }
  }

  /** The remembered list never repeats a hit and never grows past 64. */
  lemma {:induction false} RecentIsBounded(stream: seq<Signature>)
    ensures |Recent(stream)| <= 64
    ensures forall i, j :: 0 <= i < j < |Recent(stream)| ==> Recent(stream)[i] != Recent(stream)[j]
  {
    if stream != [] {
      RecentIsBounded(stream[..|stream| - 1]);
    }
  }

  /** x was taken as new somewhere in this stretch of the stream. */
  predicate TakenIn(stream: seq<Signature>, i: nat, j: nat, x: Signature)
    requires j <= |stream|
  {
    exists m: nat :: i <= m < j && IsNew(stream, m) && stream[m] == x
  }

  lemma {:induction false} NewsGrows(stream: seq<Signature>, i: nat, j: nat)
    requires i <= j <= |stream|
    ensures News(stream[..i]) <= News(stream[..j])
    ensures forall k :: |News(stream[..i])| <= k < |News(stream[..j])| ==> TakenIn(stream, i, j, News(stream[..j])[k])
  {
    if i < j {
      NewsGrows(stream, i, j - 1);
      assert stream[..j][..j - 1] == stream[..j - 1];
      assert IsNew(stream[..j], j - 1) == IsNew(stream, j - 1);
      var before, after := News(stream[..j - 1]), News(stream[..j]);
      forall k | |News(stream[..i])| <= k < |after| ensures TakenIn(stream, i, j, after[k]) {
        if k < |before| {
          assert after[k] == before[k];
          assert TakenIn(stream, i, j - 1, before[k]);
        }
      }
    }
  }

  /**
   * A copy of a hit is suppressed exactly when fewer than 64 new hits came since the hit was last
   * taken as new.
   */
  lemma CopySuppressedExactly(stream: seq<Signature>, i: nat, j: nat)
    requires i < j < |stream| && stream[i] == stream[j] && IsNew(stream, i)
    requires forall k :: i < k < j && stream[k] == stream[i] ==> !IsNew(stream, k)
    ensures !IsNew(stream, j) <==> NewsBetween(stream, i, j) < 64
  {
    RecentIsLastNews(stream[..j]);
    NewsGrows(stream, i + 1, j);
    assert stream[..i + 1][..i] == stream[..i];
    assert IsNew(stream[..i + 1], i) == IsNew(stream, i);
    var upTo, all := News(stream[..i + 1]), News(stream[..j]);
    var p := |upTo| - 1;
    assert upTo[p] == stream[i] && all[p] == stream[i];
    var kept := LastOf(all, MAX_SIGNATURES);
    if NewsBetween(stream, i, j) < MAX_SIGNATURES {
      assert kept[|kept| - (|all| - p)] == all[p];
    } else {
      forall k | 0 <= k < |kept| ensures kept[k] != stream[j] {
        var q := |all| - MAX_SIGNATURES + k;
        assert kept[k] == all[q] && q >= |upTo|;
        assert TakenIn(stream, i + 1, j, all[q]);
      }
    }
  }

  lemma FirstIsNew(stream: seq<Signature>, i: nat)
    requires i < |stream| && forall k :: 0 <= k < i ==> stream[k] != stream[i]
    ensures IsNew(stream, i)
  {
    RecentComesFrom(stream[..i], stream[i]);
  }

  lemma {:induction false} RecentComesFrom(stream: seq<Signature>, s: Signature)
    requires s !in stream
    ensures s !in Recent(stream)
  {
    if stream != [] {
      RecentComesFrom(stream[..|stream| - 1], s);
    }
  }

  /** A hit that comes twice is reported exactly once if and only if fewer than 64 new ones come in between. */
  lemma MirroredHitReportedOnce(stream: seq<Signature>, i: nat, j: nat)
    requires i < j < |stream| && stream[i] == stream[j]
    requires forall k :: 0 <= k < |stream| && k != i && k != j ==> stream[k] != stream[i]
    ensures IsNew(stream, i)
    ensures !IsNew(stream, j) <==> NewsBetween(stream, i, j) < 64
  {
    FirstIsNew(stream, i);
    CopySuppressedExactly(stream, i, j);
  }

  // ---------------------------------------------------------------------------------------------
  // Server and client together
  // ---------------------------------------------------------------------------------------------

  function ToSignature(d: Damage): Signature { Signature(d.tick, d.attacker, d.victim, d.shotSeq) }

  function Signatures(damages: seq<Damage>): seq<Signature> {
    seq(|damages|, i requires 0 <= i < |damages| => ToSignature(damages[i]))
  }

  /** Every hit a run of the combat simulation emits, in order. */
  ghost function Emitted(r: Rules, s: State, events: seq<Event>): seq<Signature>
    decreases events
  {
    if events == [] then []
    else Signatures(Step(r, s, events[0]).1.damages) + Emitted(r, Step(r, s, events[0]).0, events[1..])
  }

  /** The tick numbers of the run increase and exceed `after`. */
  predicate Increasing(after: int, events: seq<Event>)
    decreases events
  {
    events != [] ==>
      if events[0].Tick? then events[0].tick > after && Increasing(events[0].tick, events[1..]) else Increasing(after, events[1..])
  }

  ghost predicate Distinct<T>(s: seq<T>) { forall i, j :: 0 <= i < j < |s| ==> s[i] != s[j] }

  /** Over a whole run the server never emits the same (tick, attacker, victim, shot) twice. */
  lemma {:induction false} EmittedAreDistinct(r: Rules, s: State, events: seq<Event>, after: int)
    requires Sane(r) && Sound(r, s) && Increasing(after, events)
    ensures Distinct(Emitted(r, s, events))
    ensures forall x :: x in Emitted(r, s, events) ==> x.tick > after
    decreases events
  {
    if events != [] {
      var e := events[0];
      var (t, out) := Step(r, s, e);
      StepIsSound(r, s, e);
      EmittedAreDistinct(r, t, events[1..], if e.Tick? then e.tick else after);
      StepEmitsOnce(r, s, e);
      var first, rest := Signatures(out.damages), Emitted(r, t, events[1..]);
      forall i, j | 0 <= i < |first| && 0 <= j < |rest| ensures first[i] != rest[j] {
        assert rest[j] in rest;
      }
    }
  }

  lemma StepEmitsOnce(r: Rules, s: State, e: Event)
    requires Sane(r) && Sound(r, s)
    ensures Distinct(Signatures(Step(r, s, e).1.damages))
    ensures forall x :: x in Signatures(Step(r, s, e).1.damages) ==> e.Tick? && x.tick == e.tick
  {
    if e.Tick? {
      TickCountsShotsOnce(r.arsenal, s, e.tick, e.interval, e.hits);
      TickKeepsHealth(r.health, r.arsenal, s, e.tick, e.interval, e.hits);
    }
  }

  /**
   * The client sees every emitted hit twice, the two streams merged in any way. If never 64 or more
   * new hits come between the two copies of one, it reports each emitted hit exactly once.
   */
  lemma EachHitReportedExactlyOnce(r: Rules, s: State, events: seq<Event>, after: int, stream: seq<Signature>, x: Signature)
    requires Sane(r) && Sound(r, s) && Increasing(after, events)
    requires multiset(stream) == multiset(Emitted(r, s, events)) + multiset(Emitted(r, s, events))
    requires forall i, j :: 0 <= i < j < |stream| && stream[i] == stream[j] ==> NewsBetween(stream, i, j) < 64
    requires x in Emitted(r, s, events)
    ensures exists i :: 0 <= i < |stream| && stream[i] == x && IsNew(stream, i)
              && forall j :: 0 <= j < |stream| && stream[j] == x && IsNew(stream, j) ==> j == i
  {
    EmittedAreDistinct(r, s, events, after);
    CountInDistinct(Emitted(r, s, events), x);
    assert multiset(stream)[x] == 2;
    var i, j := TwoPlaces(stream, x);
    MirroredHitReportedOnce(stream, i, j);
  }

  lemma {:induction false} CountInDistinct<T>(s: seq<T>, x: T)
    requires Distinct(s) && x in s
    ensures multiset(s)[x] == 1
  {
    Sorting.NoRepeats(s);
  }

  lemma {:induction false} OnePlace<T>(s: seq<T>, x: T) returns (i: nat)
    requires multiset(s)[x] == 1
    ensures i < |s| && s[i] == x && forall k :: 0 <= k < |s| && s[k] == x ==> k == i
  {
    var n := |s| - 1;
    assert s == s[..n] + [s[n]];
    if s[n] == x {
      i := n;
      assert x !in multiset(s[..n]);
    } else {
      i := OnePlace(s[..n], x);
    }
  }

  lemma {:induction false} TwoPlaces<T>(s: seq<T>, x: T) returns (i: nat, j: nat)
    requires multiset(s)[x] == 2
    ensures i < j < |s| && s[i] == x && s[j] == x && forall k :: 0 <= k < |s| && s[k] == x ==> k == i || k == j
  {
    var n := |s| - 1;
    assert s == s[..n] + [s[n]];
    if s[n] == x {
      i := OnePlace(s[..n], x);
      j := n;
    } else {
      i, j := TwoPlaces(s[..n], x);
    }
  }
}
