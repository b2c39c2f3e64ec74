/** Who is dropped by a sweep over whole runs, and which names may join (server/src/SessionManager.cpp). */
module SessionTimeouts {
  import opened Prelude
  import opened Sessions

  /** When a peer was last heard from: its last join that was not refused, or its last heartbeat with a session. */
  function Heard(maxPlayers: nat, events: seq<Event>, token: nat): int {
    if events == [] then 0
    else
      var before, s := events[..|events| - 1], Run(maxPlayers, events[..|events| - 1]);
      match events[|events| - 1]
      case JoinRequest(t, name, now) =>
        if t == token && Join(s, t, name, now).1.status != Rejected then now else Heard(maxPlayers, before, token)
      case Beat(t, now) => if t == token && t in s.sessions then now else Heard(maxPlayers, before, token)
      case _ => Heard(maxPlayers, before, token)
  }

  lemma {:induction false} HeartbeatIsLastHeard(maxPlayers: nat, events: seq<Event>, token: nat)
    requires token in Run(maxPlayers, events).sessions
    ensures Run(maxPlayers, events).sessions[token].lastHeartbeat == Heard(maxPlayers, events, token)
  {
    if events != [] {
      if token in Run(maxPlayers, events[..|events| - 1]).sessions {
        HeartbeatIsLastHeard(maxPlayers, events[..|events| - 1], token);
      }
    }
  }

  /** A sweep drops a peer exactly when it was not heard from for longer than the timeout. */
  lemma SweepDropsTheSilent(maxPlayers: nat, events: seq<Event>, token: nat, timeout: int, now: int)
    requires token in Run(maxPlayers, events).sessions
    ensures token in Run(maxPlayers, events + [Sweep(timeout, now)]).sessions <==> now - Heard(maxPlayers, events, token) <= timeout
  {
    assert (events + [Sweep(timeout, now)])[..|events|] == events;
    HeartbeatIsLastHeard(maxPlayers, events, token);
  }

  /** It does not leave, and whenever it is looked for it was heard from within the timeout. */
  ghost predicate KeepsInTouch(maxPlayers: nat, events: seq<Event>, more: seq<Event>, token: nat) {
    forall i :: 0 <= i < |more| ==>
      && more[i] != Leave(token)
      && (more[i].Sweep? ==> more[i].now - Heard(maxPlayers, events + more[..i], token) <= more[i].timeout)
  }

  /** A peer that keeps in touch is never dropped. */
  lemma {:induction false} WhoKeepsInTouchStays(maxPlayers: nat, events: seq<Event>, more: seq<Event>, token: nat)
    requires token in Run(maxPlayers, events).sessions && KeepsInTouch(maxPlayers, events, more, token)
    ensures token in Run(maxPlayers, events + more).sessions
  {
    if more == [] {
      assert events + more == events;
    } else {
      hide Heard;
      var before, last := more[..|more| - 1], more[|more| - 1];
      assert forall i :: 0 <= i < |before| ==> more[..i] == before[..i];
      WhoKeepsInTouchStays(maxPlayers, events, before, token);
      assert events + more == events + before + [last];
      assert (events + before + [last])[..|events + before|] == events + before;
      if last.Sweep? { SweepDropsTheSilent(maxPlayers, events + before, token, last.timeout, last.now); }
    }
  }

  /** A join is refused for its name exactly if that is empty, longer than 24, or not of printable ASCII throughout. */
  lemma NameDecides(s: State, token: nat, name: string, now: int)
    ensures Join(s, token, name, now).1.error == InvalidPlayerName <==>
            name == "" || |name| > 24 || exists i :: 0 <= i < |name| && !(32 <= name[i] as int <= 126)
  {
    if forall i :: 0 <= i < |name| ==> 32 <= name[i] as int <= 126 {
      assert forall i :: 0 <= i < |name| ==> ' ' <= name[i] <= '~';
    }
    if ValidName(name) {
      forall i | 0 <= i < |name| ensures 32 <= name[i] as int <= 126 { assert ' ' <= name[i] <= '~'; }
    }
  }
}
