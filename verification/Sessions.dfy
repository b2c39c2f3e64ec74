/** server/src/SessionManager.cpp: joins, names, player slots and timeouts. */
module Sessions {
  import opened Prelude

  const MAX_NAME_LENGTH := 24

  datatype JoinStatus = Accepted | Reconnected | AlreadyJoined | Rejected

  datatype JoinError = NoError | InvalidPlayerName | NameInUse | ServerFull

  datatype Session = Session(playerId: nat, name: string, token: nat, lastHeartbeat: int)

  datatype JoinResult = JoinResult(status: JoinStatus, error: JoinError, session: Option<Session>)

  /** slotOwners[0] is never used; a slot is free when its owner is 0. */
  datatype State = State(slotOwners: seq<nat>, sessions: map<nat, Session>, slotByName: map<string, nat>)

  predicate ValidName(name: string) {
    0 < |name| <= MAX_NAME_LENGTH && forall i :: 0 <= i < |name| ==> ' ' <= name[i] <= '~'
  }

  predicate SlotIsFree(s: State, slot: nat) { 0 < slot < |s.slotOwners| && s.slotOwners[slot] == 0 }

  function FirstFreeFrom(owners: seq<nat>, slot: nat): (r: Option<nat>)
    ensures r.Some? ==> slot <= r.value < |owners| && owners[r.value] == 0 && forall i :: slot <= i < r.value ==> owners[i] != 0
    ensures r.None? ==> forall i :: slot <= i < |owners| ==> owners[i] != 0
    decreases |owners| - slot
  {
    if slot >= |owners| then None
    else if owners[slot] == 0 then Some(slot)
    else FirstFreeFrom(owners, slot + 1)
  }

  function Refusal(error: JoinError): JoinResult { JoinResult(Rejected, error, None) }

  function Occupy(s: State, slot: nat, token: nat, name: string, now: int): State
    requires slot < |s.slotOwners|
  {
    State(s.slotOwners[slot := token], s.sessions[token := Session(slot, name, token, now)], s.slotByName[name := slot])
  }

  function Join(s: State, token: nat, name: string, now: int): (State, JoinResult) {
    if !ValidName(name) then (s, Refusal(InvalidPlayerName))
    else if token in s.sessions then
      if s.sessions[token].name != name then (s, Refusal(NameInUse))
      else
        var session := s.sessions[token].(lastHeartbeat := now);
        (s.(sessions := s.sessions[token := session]), JoinResult(AlreadyJoined, NoError, Some(session)))
    else if name in s.slotByName then
      var slot := s.slotByName[name];
      if !SlotIsFree(s, slot) then (s, Refusal(NameInUse))
      else (Occupy(s, slot, token, name, now), JoinResult(Reconnected, NoError, Some(Session(slot, name, token, now))))
    else
      match FirstFreeFrom(s.slotOwners, 1)
      case None => (s, Refusal(ServerFull))
      case Some(slot) => (Occupy(s, slot, token, name, now), JoinResult(Accepted, NoError, Some(Session(slot, name, token, now))))
  }

  function Disconnect(s: State, token: nat): State {
    if token !in s.sessions then s
    else
      var slot := s.sessions[token].playerId;
      State(if 0 < slot < |s.slotOwners| then s.slotOwners[slot := 0] else s.slotOwners, s.sessions - {token}, s.slotByName)
  }

  predicate TimedOut(session: Session, timeout: int, now: int) { now - session.lastHeartbeat > timeout }

  /** The slots these peers' sessions hold. */
  function SlotsOf(s: State, peers: set<nat>): set<nat> { set t | t in peers && t in s.sessions :: s.sessions[t].playerId }

  /** The sessions of these peers are dropped and their slots freed; the others are untouched. */
  function DropAll(s: State, peers: set<nat>): State {
    State(seq(|s.slotOwners|, i requires 0 <= i < |s.slotOwners| => if i > 0 && i in SlotsOf(s, peers) then 0 else s.slotOwners[i]),
          s.sessions - peers, s.slotByName)
  }

  function Overdue(s: State, timeout: int, now: int): set<nat> {
    set t | t in s.sessions && TimedOut(s.sessions[t], timeout, now)
  }

  function Expire(s: State, timeout: int, now: int): State { DropAll(s, Overdue(s, timeout, now)) }

  // ---------------------------------------------------------------------------------------------
  // What every operation keeps
  // ---------------------------------------------------------------------------------------------

  function Taken(owners: seq<nat>): nat {
    if owners == [] then 0 else Taken(owners[..|owners| - 1]) + if owners[|owners| - 1] != 0 then 1 else 0
  }

  /** Occupied slots and live sessions name each other, and names are kept to the slot they reserved. */
  ghost predicate Bijective(s: State) {
    && |s.slotOwners| > 0 && s.slotOwners[0] == 0
    && (forall t :: t in s.sessions ==>
          && t != 0 && s.sessions[t].token == t && ValidName(s.sessions[t].name)
          && 0 < s.sessions[t].playerId < |s.slotOwners| && s.slotOwners[s.sessions[t].playerId] == t
          && s.sessions[t].name in s.slotByName && s.slotByName[s.sessions[t].name] == s.sessions[t].playerId)
    && (forall i :: 0 <= i < |s.slotOwners| && s.slotOwners[i] != 0 ==>
          s.slotOwners[i] in s.sessions && s.sessions[s.slotOwners[i]].playerId == i)
    && (forall n :: n in s.slotByName ==> 0 < s.slotByName[n] < |s.slotOwners|)
    && |s.sessions| == Taken(s.slotOwners)
  }

  class SessionManager {
    const maxPlayers: nat
    const heartbeatTimeout: int
    var slotOwners: seq<nat>
    var sessionsByPeer: map<nat, Session>
    var slotByPlayerName: map<string, nat>

    ghost function Holding(): State
      reads this
    {
      State(slotOwners, sessionsByPeer, slotByPlayerName)
    }

    constructor (maxPlayers: nat, heartbeatTimeout: int)
      ensures this.maxPlayers == maxPlayers && this.heartbeatTimeout == heartbeatTimeout
      ensures Holding() == Fresh(maxPlayers)
    {
      this.maxPlayers := maxPlayers;
      this.heartbeatTimeout := heartbeatTimeout;
      slotOwners := seq(maxPlayers + 1, i => 0);
      sessionsByPeer, slotByPlayerName := map[], map[];
    }

    method IsValidPlayerName(name: string) returns (ok: bool)
      ensures ok == ValidName(name)
    {
      if |name| == 0 || |name| > MAX_NAME_LENGTH {
        return false;
      }
      for i := 0 to |name|
        invariant forall j :: 0 <= j < i ==> ' ' <= name[j] <= '~'
      {
        if !(' ' <= name[i] <= '~') {
          return false;
        }
      }
      return true;
    }

    method FirstFreeSlot() returns (slot: Option<nat>)
      ensures slot == FirstFreeFrom(slotOwners, 1)
    {
      var i := 1;
      while i < |slotOwners|
        invariant FirstFreeFrom(slotOwners, i) == FirstFreeFrom(slotOwners, 1)
      {
        if slotOwners[i] == 0 {
          return Some(i);
        }
        i := i + 1;
      }
      return None;
    }

    method HandleJoinRequest(token: nat, name: string, now: int) returns (result: JoinResult)
      modifies this
      ensures Holding() == Join(old(Holding()), token, name, now).0
      ensures result == Join(old(Holding()), token, name, now).1
    {
      var valid := IsValidPlayerName(name);
      if !valid {
        return Refusal(InvalidPlayerName);
      }
      if token in sessionsByPeer {
        var existing := sessionsByPeer[token];
        if existing.name != name {
          return Refusal(NameInUse);
        }
        sessionsByPeer := sessionsByPeer[token := existing.(lastHeartbeat := now)];
        return JoinResult(AlreadyJoined, NoError, Some(sessionsByPeer[token]));
      }
      var status := Accepted;
      var slot: nat;
      if name in slotByPlayerName {
        slot := slotByPlayerName[name];
        if slot == 0 || slot >= |slotOwners| || slotOwners[slot] != 0 {
          return Refusal(NameInUse);
        }
        status := Reconnected;
      } else {
        var free := FirstFreeSlot();
        if free.None? {
          return Refusal(ServerFull);
        }
        slot := free.value;
      }
      var session := Session(slot, name, token, now);
      slotOwners := slotOwners[slot := token];
      slotByPlayerName := slotByPlayerName[name := slot];
      sessionsByPeer := sessionsByPeer[token := session];
      return JoinResult(status, NoError, Some(session));
    }

    method HandleHeartbeat(token: nat, now: int) returns (known: bool)
      modifies this
      ensures known == (token in old(sessionsByPeer))
      ensures Holding() == if known then old(Holding()).(sessions := old(sessionsByPeer)[token := old(sessionsByPeer)[token].(lastHeartbeat := now)])
                           else old(Holding())
    {
      if token !in sessionsByPeer {
        return false;
      }
      sessionsByPeer := sessionsByPeer[token := sessionsByPeer[token].(lastHeartbeat := now)];
      return true;
    }

    method HandleDisconnect(token: nat) returns (dropped: Option<Session>)
      modifies this
      ensures Holding() == Disconnect(old(Holding()), token)
      ensures dropped == if token in old(sessionsByPeer) then Some(old(sessionsByPeer)[token]) else None
    {
      if token !in sessionsByPeer {
        return None;
      }
      dropped := Some(sessionsByPeer[token]);
      var slot := sessionsByPeer[token].playerId;
      if 0 < slot < |slotOwners| {
        slotOwners := slotOwners[slot := 0];
      }
      sessionsByPeer := sessionsByPeer - {token};
    }

    method DropOverdue(token: nat, list: seq<Session>, ghost before: State, ghost late: set<nat>, ghost todo: set<nat>)
      returns (longer: seq<Session>)
      requires token in todo && todo <= late && Sweeping(before, late, Holding(), todo, list)
      modifies this
      ensures Sweeping(before, late, Holding(), todo - {token}, longer)
    {
      SweepOne(before, late, Holding(), token, todo, list);
      var dropped := HandleDisconnect(token);
      longer := list + [dropped.value];
    }

    /** Drops the overdue sessions one by one, in whatever order the table yields them. */
    method CollectTimedOut(now: int) returns (timedOut: seq<Session>)
      modifies this
      ensures Holding() == Expire(old(Holding()), heartbeatTimeout, now)
      ensures Reported(timedOut, old(Holding()), Overdue(old(Holding()), heartbeatTimeout, now))
    {
      ghost var before := Holding();
      var late := Overdue(State(slotOwners, sessionsByPeer, slotByPlayerName), heartbeatTimeout, now);
      var todo := late;
      timedOut := [];
      SweepStarts(before, late);
      while todo != {}
        invariant todo <= late && Sweeping(before, late, Holding(), todo, timedOut)
        decreases todo
      {
        var token :| token in todo;
        timedOut := DropOverdue(token, timedOut, before, late, todo);
        todo := todo - {token};
      }
      SweepEnds(before, late, Holding(), timedOut);
    }
  }

  /** The list holds the sessions of these peers, each once, in some order. */
  ghost predicate Reported(list: seq<Session>, s: State, peers: set<nat>) {
    exists order :: ReportedInOrder(list, s, peers, order)
  }

  ghost predicate ReportedInOrder(list: seq<Session>, s: State, peers: set<nat>, order: seq<nat>) {
    && |list| == |order| == |peers|
    && (forall t :: t in order <==> t in peers)
    && (forall i :: 0 <= i < |order| ==> order[i] in s.sessions && list[i] == s.sessions[order[i]])
  }

  lemma ReportOne(list: seq<Session>, s: State, peers: set<nat>, t: nat)
    requires Reported(list, s, peers) && t !in peers && t in s.sessions
    ensures Reported(list + [s.sessions[t]], s, peers + {t})
  {
    var order :| ReportedInOrder(list, s, peers, order);
    assert ReportedInOrder(list + [s.sessions[t]], s, peers + {t}, order + [t]);
  }

  /** The peers still to be dropped are as they were, dropping them completes the sweep, the rest is listed. */
  ghost predicate Sweeping(before: State, late: set<nat>, s: State, todo: set<nat>, list: seq<Session>) {
    && DropAll(s, todo) == DropAll(before, late)
    && (forall t :: t in todo ==> t in s.sessions && t in before.sessions && s.sessions[t] == before.sessions[t])
    && Reported(list, before, late - todo)
  }

  lemma SweepStarts(before: State, late: set<nat>)
    requires late <= before.sessions.Keys
    ensures Sweeping(before, late, before, late, [])
  {
    assert late - late == {};
    assert ReportedInOrder([], before, {}, []);
  }

  lemma SweepOne(before: State, late: set<nat>, s: State, t: nat, todo: set<nat>, list: seq<Session>)
    requires Sweeping(before, late, s, todo, list) && t in todo && todo <= late
    ensures t in s.sessions && Sweeping(before, late, Disconnect(s, t), todo - {t}, list + [s.sessions[t]])
  {
    hide DropAll, Reported;
    DropOne(s, t, todo);
    ReportOne(list, before, late - todo, t);
    assert late - (todo - {t}) == (late - todo) + {t};
  }

  lemma SweepEnds(before: State, late: set<nat>, s: State, list: seq<Session>)
    requires Sweeping(before, late, s, {}, list)
    ensures s == DropAll(before, late) && Reported(list, before, late)
  {
    DropNone(s);
    assert late - {} == late;
  }

  lemma DropNone(s: State)
    ensures DropAll(s, {}) == s
  {
  }

  /** Dropping one of the peers first changes nothing about where the sweep ends. */
  lemma DropOne(s: State, t: nat, peers: set<nat>)
    requires t in peers && t in s.sessions
    ensures DropAll(Disconnect(s, t), peers - {t}) == DropAll(s, peers)
    ensures Disconnect(s, t).sessions == s.sessions - {t}
  {
    var d := Disconnect(s, t);
    SlotsWithout(s, d, t, peers);
    assert DropAll(d, peers - {t}).slotOwners == DropAll(s, peers).slotOwners;
    assert DropAll(d, peers - {t}).sessions == DropAll(s, peers).sessions;
  }

  lemma SlotsWithout(s: State, d: State, t: nat, peers: set<nat>)
    requires t in peers && t in s.sessions && d.sessions == s.sessions - {t}
    ensures SlotsOf(s, peers) == SlotsOf(d, peers - {t}) + {s.sessions[t].playerId}
  {
    forall slot | slot in SlotsOf(s, peers) ensures slot in SlotsOf(d, peers - {t}) || slot == s.sessions[t].playerId {
      var u :| u in peers && u in s.sessions && s.sessions[u].playerId == slot;
      if u != t { assert u in d.sessions; }
    }
  }

  function Fresh(maxPlayers: nat): State { State(seq(maxPlayers + 1, i => 0), map[], map[]) }

  lemma {:induction false} TakenAfterUpdate(owners: seq<nat>, slot: nat, owner: nat)
    requires slot < |owners|
    ensures Taken(owners[slot := owner]) == Taken(owners) - (if owners[slot] != 0 then 1 else 0) + (if owner != 0 then 1 else 0)
  {
    var n := |owners| - 1;
    if slot == n {
      assert owners[slot := owner][..n] == owners[..n];
    } else {
      assert owners[slot := owner][..n] == owners[..n][slot := owner];
      TakenAfterUpdate(owners[..n], slot, owner);
    }
  }

  lemma {:induction false} TakenBounds(owners: seq<nat>)
    ensures 0 <= Taken(owners) <= |owners|
    ensures Taken(owners) == |owners| <==> forall i :: 0 <= i < |owners| ==> owners[i] != 0
    ensures Taken(owners) == 0 <==> forall i :: 0 <= i < |owners| ==> owners[i] == 0
  {
    if owners != [] {
      var n := |owners| - 1;
      TakenBounds(owners[..n]);
      assert owners == owners[..n] + [owners[n]];
    }
  }

  /** The first free slot exists exactly while some player slot is not taken. */
  lemma FullWhenAllTaken(s: State)
    requires Bijective(s)
    ensures FirstFreeFrom(s.slotOwners, 1).None? <==> |s.sessions| == |s.slotOwners| - 1
  {
    var rest := s.slotOwners[1..];
    assert s.slotOwners == [s.slotOwners[0]] + rest;
    TakenWithout(s.slotOwners);
    TakenBounds(rest);
    assert forall i :: 0 <= i < |rest| ==> rest[i] == s.slotOwners[i + 1];
    assert FirstFreeFrom(s.slotOwners, 1).None? <==> forall i :: 0 <= i < |rest| ==> rest[i] != 0;
  }

  lemma {:induction false} TakenWithout(owners: seq<nat>)
    requires |owners| > 0 && owners[0] == 0
    ensures Taken(owners) == Taken(owners[1..])
  {
    if |owners| > 1 {
      var n := |owners| - 1;
      assert owners[1..][..n - 1] == owners[..n][1..];
      TakenWithout(owners[..n]);
    }
  }

  lemma OccupyKeepsBijection(s: State, slot: nat, token: nat, name: string, now: int)
    requires Bijective(s) && token != 0 && token !in s.sessions && ValidName(name) && SlotIsFree(s, slot)
    requires name in s.slotByName ==> s.slotByName[name] == slot
    ensures Bijective(Occupy(s, slot, token, name, now))
  {
    TakenAfterUpdate(s.slotOwners, slot, token);
  }

  /** With real peers every join keeps sessions, slots and names in one-to-one correspondence. */
  lemma JoinKeepsBijection(s: State, token: nat, name: string, now: int)
    requires Bijective(s) && token != 0
    ensures Bijective(Join(s, token, name, now).0)
  {
    if ValidName(name) && token !in s.sessions {
      if name in s.slotByName {
        if SlotIsFree(s, s.slotByName[name]) { OccupyKeepsBijection(s, s.slotByName[name], token, name, now); }
      } else {
        var slot := FirstFreeFrom(s.slotOwners, 1);
        if slot.Some? { OccupyKeepsBijection(s, slot.value, token, name, now); }
      }
    }
  }

  lemma DisconnectKeepsBijection(s: State, token: nat)
    requires Bijective(s)
    ensures Bijective(Disconnect(s, token))
    ensures SlotIsFree(s, 0) || token !in s.sessions || SlotIsFree(Disconnect(s, token), s.sessions[token].playerId)
  {
    if token in s.sessions { TakenAfterUpdate(s.slotOwners, s.sessions[token].playerId, 0); }
  }

  /** A timeout sweep is the same as disconnecting the overdue peers in any order. */
  lemma {:induction false} DropAllKeepsBijection(s: State, peers: set<nat>)
    requires Bijective(s) && peers <= s.sessions.Keys
    ensures Bijective(DropAll(s, peers))
    decreases peers
  {
    if peers == {} {
      DropNone(s);
    } else {
      var t :| t in peers;
      DropOne(s, t, peers);
      DisconnectKeepsBijection(s, t);
      DropAllKeepsBijection(Disconnect(s, t), peers - {t});
    }
  }

  datatype Event =
    | JoinRequest(token: nat, name: string, now: int)
    | Beat(token: nat, now: int)
    | Leave(token: nat)
    | Sweep(timeout: int, now: int)

  function Step(s: State, e: Event): State {
    match e
    case JoinRequest(token, name, now) => Join(s, token, name, now).0
    case Beat(token, now) =>
      if token in s.sessions then s.(sessions := s.sessions[token := s.sessions[token].(lastHeartbeat := now)]) else s
    case Leave(token) => Disconnect(s, token)
    case Sweep(timeout, now) => Expire(s, timeout, now)
  }

  function Run(maxPlayers: nat, events: seq<Event>): State {
    if events == [] then Fresh(maxPlayers) else Step(Run(maxPlayers, events[..|events| - 1]), events[|events| - 1])
  }

  predicate RealPeers(events: seq<Event>) {
    forall i :: 0 <= i < |events| && events[i].JoinRequest? ==> events[i].token != 0
  }

  lemma StepKeepsSlots(s: State, e: Event)
    ensures |Step(s, e).slotOwners| == |s.slotOwners|
  {
  }

  lemma StepKeepsBijection(s: State, e: Event)
    requires Bijective(s) && (e.JoinRequest? ==> e.token != 0)
    ensures Bijective(Step(s, e)) && |Step(s, e).slotOwners| == |s.slotOwners|
  {
    hide Bijective, Join, Disconnect, DropAll;
    StepKeepsSlots(s, e);
    match e
    case JoinRequest(token, name, now) => JoinKeepsBijection(s, token, name, now);
    case Beat(token, now) => BeatKeepsBijection(s, token, now);
    case Leave(token) => DisconnectKeepsBijection(s, token);
    case Sweep(timeout, now) => DropAllKeepsBijection(s, Overdue(s, timeout, now));
  }

  lemma BeatKeepsBijection(s: State, token: nat, now: int)
    requires Bijective(s)
    ensures Bijective(Step(s, Beat(token, now)))
  {
  }

  /** A reserved name keeps its slot. */
  lemma StepKeepsNames(s: State, e: Event, name: string)
    requires name in s.slotByName
    ensures name in Step(s, e).slotByName && Step(s, e).slotByName[name] == s.slotByName[name]
  {
  }

  lemma {:induction false} RunIsBijective(maxPlayers: nat, events: seq<Event>)
    requires RealPeers(events)
    ensures Bijective(Run(maxPlayers, events)) && |Run(maxPlayers, events).slotOwners| == maxPlayers + 1
  {
    if events == [] {
      TakenBounds(Fresh(maxPlayers).slotOwners);
    } else {
      RunIsBijective(maxPlayers, events[..|events| - 1]);
      StepKeepsBijection(Run(maxPlayers, events[..|events| - 1]), events[|events| - 1]);
    }
  }

  /** In every reachable state live sessions have pairwise different ids and names. */
  lemma SessionsAreDistinct(maxPlayers: nat, events: seq<Event>, a: nat, b: nat)
    requires RealPeers(events)
    requires var s := Run(maxPlayers, events); a in s.sessions && b in s.sessions && a != b
    ensures var s := Run(maxPlayers, events);
            s.sessions[a].playerId != s.sessions[b].playerId && s.sessions[a].name != s.sessions[b].name
  {
    RunIsBijective(maxPlayers, events);
  }

  /** A new peer with a name never seen is refused as full exactly when every slot is in use. */
  lemma RefusedExactlyWhenFull(maxPlayers: nat, events: seq<Event>, token: nat, name: string, now: int)
    requires RealPeers(events) && ValidName(name)
    requires var s := Run(maxPlayers, events); token !in s.sessions && name !in s.slotByName
    ensures var s := Run(maxPlayers, events);
            Join(s, token, name, now).1.error == ServerFull <==> |s.sessions| == maxPlayers
  {
    RunIsBijective(maxPlayers, events);
    FullWhenAllTaken(Run(maxPlayers, events));
  }

  /** The id an event gives to a name, if it is a join that succeeds. */
  function Given(s: State, e: Event, name: string): Option<nat> {
    match e
    case JoinRequest(token, n, now) =>
      var r := Join(s, token, n, now).1;
      if n == name && r.status != Rejected && r.session.Some? then Some(r.session.value.playerId) else None
    case _ => None
  }

  function GivenId(maxPlayers: nat, events: seq<Event>, i: nat, name: string): Option<nat>
    requires i < |events|
  {
    Given(Run(maxPlayers, events[..i]), events[i], name)
  }

  lemma GivenIsReserved(s: State, e: Event, name: string)
    requires Bijective(s) && Given(s, e, name).Some?
    ensures name in Step(s, e).slotByName && Step(s, e).slotByName[name] == Given(s, e, name).value
    ensures name in s.slotByName ==> s.slotByName[name] == Given(s, e, name).value
  {
  }

  /** An id given once under a name stays reserved for it. */
  lemma {:induction false} NameKeepsSlot(maxPlayers: nat, events: seq<Event>, i: nat, j: nat, name: string)
    requires RealPeers(events) && i < j <= |events| && GivenId(maxPlayers, events, i, name).Some?
    ensures var s := Run(maxPlayers, events[..j]);
            name in s.slotByName && s.slotByName[name] == GivenId(maxPlayers, events, i, name).value
  {
    assert events[..j][..j - 1] == events[..j - 1];
    RunIsBijective(maxPlayers, events[..j - 1]);
    hide Bijective, Step, Given;
    if i < j - 1 {
      NameKeepsSlot(maxPlayers, events, i, j - 1, name);
      StepKeepsNames(Run(maxPlayers, events[..j - 1]), events[j - 1], name);
    } else {
      GivenIsReserved(Run(maxPlayers, events[..i]), events[i], name);
    }
  }

  /** Over the whole run, every successful join under a name gets the same player id. */
  lemma SameNameSameId(maxPlayers: nat, events: seq<Event>, i: nat, j: nat, name: string)
    requires RealPeers(events) && i < j < |events|
    requires GivenId(maxPlayers, events, i, name).Some? && GivenId(maxPlayers, events, j, name).Some?
    ensures GivenId(maxPlayers, events, i, name) == GivenId(maxPlayers, events, j, name)
  {
    hide Bijective, Given;
    NameKeepsSlot(maxPlayers, events, i, j, name);
    RunIsBijective(maxPlayers, events[..j]);
    GivenIsReserved(Run(maxPlayers, events[..j]), events[j], name);
  }

  /** The guards under which a join by a peer without a session is refused. */
  predicate Refused(s: State, name: string) {
    || !ValidName(name)
    || (name in s.slotByName && !SlotIsFree(s, s.slotByName[name]))
    || (name !in s.slotByName && |s.sessions| == |s.slotOwners| - 1)
  }

  /**
   * A join keeps the correspondence exactly when it has a real token or is refused. The server itself takes tokens from
   * peer pointers (server/src/main.cpp, line 134), so there the condition holds.
   */
  lemma ZeroTokenMustBeRefused(s: State, token: nat, name: string, now: int)
    requires Bijective(s)
    ensures Bijective(Join(s, token, name, now).0) <==> token != 0 || Refused(s, name)
    ensures token !in s.sessions ==> (Join(s, token, name, now).1.status == Rejected <==> Refused(s, name))
  {
    FullWhenAllTaken(s);
    if token != 0 {
      JoinKeepsBijection(s, token, name, now);
    } else {
      var t := Join(s, 0, name, now).0;
      assert 0 in t.sessions ==> !Bijective(t);
    }
  }

  /** And one accepted such join is enough: its slot still looks free, and the next player gets the same id. */
  lemma ZeroTokenSharesSlot(maxPlayers: nat, now: int)
    requires maxPlayers > 0
    ensures var events := [JoinRequest(0, "a", now), JoinRequest(7, "b", now)];
            var s := Run(maxPlayers, events);
            0 in s.sessions && 7 in s.sessions && s.sessions[0].playerId == s.sessions[7].playerId
  {
    var first, second := JoinRequest(0, "a", now), JoinRequest(7, "b", now);
    assert [first, second][..1] == [first] && [first][..0] == [];
    var s0 := Fresh(maxPlayers);
    var s1 := Run(maxPlayers, [first]);
    assert s1 == Step(Run(maxPlayers, []), first);
    assert ValidName("a") && ValidName("b");
    assert s1 == Occupy(s0, 1, 0, "a", now);
    assert s1.slotOwners == s0.slotOwners;
    assert Step(s1, second) == Occupy(s1, 1, 7, "b", now);
  }
}
