/**
 * client/src/PredictionReconciler.cpp and server/src/MovementSimulation.cpp: the client predicts
 * ahead of the server and replays what the server has not acknowledged.
 */
module Prediction {
  import opened Prelude
  import opened Movement
  import opened Reals

  // ---------------------------------------------------------------------------------------------
  // Client
  // ---------------------------------------------------------------------------------------------

  datatype PendingInput = PendingInput(seqNo: nat, intent: Intent, fire: bool, dt: int)

  datatype Predicted = Predicted(motion: Motion, speed: real, lastInputSeq: nat)

  datatype Snapshot = Snapshot(motion: Motion, speed: real, ack: nat)

  datatype Result = Result(acked: nat, replayed: nat, correction: real)

  datatype Client = Client(state: Predicted, pending: seq<PendingInput>, nextSeq: nat)

  const START := Predicted(AT_REST, 0.0, 0)

  const NEW_CLIENT := Client(START, [], 1)

  /** The movement step both sides share: from a motion, an intent and nanoseconds, the new motion and speed. */
  type Mover = (Motion, Intent, int) -> (Motion, real)

  function SharedStep(norm: Norm, t: Tuning): Mover {
    (m: Motion, i: Intent, nanos: int) =>
      var n := Step(norm, m, i, Seconds(nanos), t);
      (n, HorizontalSpeed(norm, n))
  }

  function ApplyInput(move: Mover, s: Predicted, i: PendingInput): Predicted {
    var (m, speed) := move(s.motion, i.intent, i.dt);
    Predicted(m, speed, Max(s.lastInputSeq, i.seqNo))
  }

  function Replay(move: Mover, s: Predicted, inputs: seq<PendingInput>): Predicted {
    if inputs == [] then s else ApplyInput(move, Replay(move, s, inputs[..|inputs| - 1]), inputs[|inputs| - 1])
  }

  function QueueInput(move: Mover, cap: nat, c: Client, intent: Intent, fire: bool, dt: int): Client
    requires cap > 0
  {
    var i := PendingInput(c.nextSeq, intent, fire, dt);
    Client(ApplyInput(move, c.state, i), (if |c.pending| >= cap then c.pending[1..] else c.pending) + [i], c.nextSeq + 1)
  }

  /** What is left after popping acknowledged inputs off the front. */
  function DropAcked(pending: seq<PendingInput>, ack: nat): seq<PendingInput> {
    if pending != [] && pending[0].seqNo <= ack then DropAcked(pending[1..], ack) else pending
  }

  function Reconcile(move: Mover, c: Client, s: Snapshot): Client {
    var pending := DropAcked(c.pending, s.ack);
    Client(Replay(move, Predicted(s.motion, s.speed, s.ack), pending), pending, c.nextSeq)
  }

  class PredictionReconciler {
    const norm: Norm
    const tuning: Tuning
    const maxPending: nat
    var state: Predicted
    var pendingInputs: seq<PendingInput>
    var nextInputSeq: nat

    ghost predicate Valid() { maxPending > 0 && SaneTuning(tuning) }

    ghost function Holding(): Client
      reads this
    {
      Client(state, pendingInputs, nextInputSeq)
    }

    constructor (norm: Norm, tuning: Tuning, maxPending: nat)
      ensures Valid() && Holding() == NEW_CLIENT && this.norm == norm
      ensures this.tuning == SanitizeTuning(tuning) && this.maxPending == if maxPending == 0 then 256 else maxPending
    {
      this.norm := norm;
      this.tuning := SanitizeTuning(tuning);
      this.maxPending := if maxPending == 0 then 256 else maxPending;
      state, pendingInputs, nextInputSeq := START, [], 1;
    }

    method Reset()
      modifies this
      ensures Holding() == NEW_CLIENT
    {
      nextInputSeq := 1;
      state := START;
      pendingInputs := [];
    }

    method QueueLocalInput(intent: Intent, fire: bool, dt: int) returns (inputSeq: nat)
      requires Valid()
      modifies this
      ensures Holding() == QueueInput(SharedStep(norm, tuning), maxPending, old(Holding()), intent, fire, dt)
      ensures inputSeq == old(nextInputSeq)
    {
      var input := PendingInput(nextInputSeq, intent, fire, dt);
      nextInputSeq := nextInputSeq + 1;
      if |pendingInputs| >= maxPending {
        pendingInputs := pendingInputs[1..];
      }
      pendingInputs := pendingInputs + [input];
      state := ApplyInput(SharedStep(norm, tuning), state, input);
      return input.seqNo;
    }

    method ReplayPending() returns (replayed: nat)
      modifies this`state
      ensures state == Replay(SharedStep(norm, tuning), old(state), pendingInputs) && replayed == |pendingInputs|
    {
      replayed := 0;
      while replayed < |pendingInputs|
        invariant 0 <= replayed <= |pendingInputs|
        invariant state == Replay(SharedStep(norm, tuning), old(state), pendingInputs[..replayed])
      {
        assert pendingInputs[..replayed + 1][..replayed] == pendingInputs[..replayed];
        state := ApplyInput(SharedStep(norm, tuning), state, pendingInputs[replayed]);
        replayed := replayed + 1;
      }
      assert pendingInputs[..|pendingInputs|] == pendingInputs;
    }

    method DropAcknowledged(ack: nat)
      modifies this`pendingInputs
      ensures pendingInputs == DropAcked(old(pendingInputs), ack)
    {
      while pendingInputs != [] && pendingInputs[0].seqNo <= ack
        invariant DropAcked(pendingInputs, ack) == DropAcked(old(pendingInputs), ack)
        decreases |pendingInputs|
      {
        pendingInputs := pendingInputs[1..];
      }
    }

    method ReconcileWith(authoritative: Snapshot) returns (result: Result)
      modifies this
      ensures Holding() == Reconcile(SharedStep(norm, tuning), old(Holding()), authoritative)
      ensures result == Result(authoritative.ack, |pendingInputs|,
                               norm(state.motion.x - old(state.motion.x), state.motion.y - old(state.motion.y)))
    {
      var beforeX, beforeY := state.motion.x, state.motion.y;
      DropAcknowledged(authoritative.ack);
      state := Predicted(authoritative.motion, authoritative.speed, authoritative.ack);
      var replayed := ReplayPending();
      result := Result(authoritative.ack, replayed, norm(state.motion.x - beforeX, state.motion.y - beforeY));
    }
  }

  // ---------------------------------------------------------------------------------------------
  // Server
  // ---------------------------------------------------------------------------------------------

  datatype PlayerInput = PlayerInput(player: nat, seqNo: nat, intent: Intent)

  datatype PlayerMotion = PlayerMotion(motion: Motion, speed: real, lastProcessed: nat)

  const JOINED := PlayerMotion(AT_REST, 0.0, 0)

  const NO_INTENT := Intent(0.0, 0.0, false, false, false)

  /** The last input of a player in a tick's list. */
  function Latest(inputs: seq<PlayerInput>, player: nat): Option<PlayerInput> {
    if inputs == [] then None
    else if inputs[|inputs| - 1].player == player then Some(inputs[|inputs| - 1])
    else Latest(inputs[..|inputs| - 1], player)
  }

  function ServerStep(move: Mover, s: PlayerMotion, input: Option<PlayerInput>, dt: int): PlayerMotion {
    var (m, speed) := move(s.motion, if input.Some? then input.value.intent else NO_INTENT, dt);
    PlayerMotion(m, speed, if input.Some? then Max(s.lastProcessed, input.value.seqNo) else s.lastProcessed)
  }

  class MovementSimulation {
    const norm: Norm
    const tuning: Tuning
    var states: map<nat, PlayerMotion>

    constructor (norm: Norm, tuning: Tuning)
      ensures this.norm == norm && this.tuning == SanitizeTuning(tuning) && states == map[]
    {
      this.norm := norm;
      this.tuning := SanitizeTuning(tuning);
      states := map[];
    }

    method EnsurePlayer(player: nat)
      modifies this
      ensures states == old(states)[player := Get(old(states), player, JOINED)]
    {
      if player !in states {
        states := states[player := JOINED];
      }
    }

    method RemovePlayer(player: nat)
      modifies this
      ensures states == old(states) - {player}
    {
      states := states - {player};
    }

    /** The newest input of each sender, all of whom are known from then on. */
    method CollectNewest(inputs: seq<PlayerInput>) returns (latest: map<nat, PlayerInput>)
      modifies this
      ensures forall p :: (if p in latest then Some(latest[p]) else None) == Latest(inputs, p)
      ensures states.Keys == old(states).Keys + (set i | i in inputs :: i.player)
      ensures forall p :: p in states ==> states[p] == Get(old(states), p, JOINED)
    {
      latest := map[];
      for i := 0 to |inputs|
        invariant forall p :: (if p in latest then Some(latest[p]) else None) == Latest(inputs[..i], p)
        invariant states.Keys == old(states).Keys + (set j | j in inputs[..i] :: j.player)
        invariant forall p :: p in states ==> states[p] == Get(old(states), p, JOINED)
      {
        assert inputs[..i + 1][..i] == inputs[..i];
        assert inputs[..i + 1] == inputs[..i] + [inputs[i]];
        latest := latest[inputs[i].player := inputs[i]];
        EnsurePlayer(inputs[i].player);
      }
      assert inputs[..|inputs|] == inputs;
    }

    method StepPlayer(tickInterval: int, p: nat, newest: Option<PlayerInput>)
      requires p in states
      modifies this
      ensures states == old(states)[p := ServerStep(SharedStep(norm, tuning), old(states)[p], newest, tickInterval)]
    {
      var state := states[p];
      var intent := NO_INTENT;
      var processed := state.lastProcessed;
      if newest.Some? {
        intent := newest.value.intent;
        if newest.value.seqNo > processed {
          processed := newest.value.seqNo;
        }
      }
      var (stepped, speed) := SharedStep(norm, tuning)(state.motion, intent, tickInterval);
      states := states[p := PlayerMotion(stepped, speed, processed)];
    }

    /**
     * Every known player and every sender steps once, by the newest input it has in the list and
     * otherwise with its hands off, in whatever order the player table is visited.
     */
    method ApplyInputs(tickInterval: int, inputs: seq<PlayerInput>)
      modifies this
      ensures tickInterval <= 0 ==> states == old(states)
      ensures tickInterval > 0 ==>
                && states.Keys == old(states).Keys + (set i | i in inputs :: i.player)
                && forall p :: p in states ==>
                     states[p] == ServerStep(SharedStep(norm, tuning), Get(old(states), p, JOINED), Latest(inputs, p), tickInterval)
    {
      if tickInterval <= 0 {
        return;
      }
      var latest := CollectNewest(inputs);
      ghost var joined := states;
      var todo := states.Keys;
      while todo != {}
        invariant todo <= joined.Keys && states.Keys == joined.Keys
        invariant forall p :: p in states ==>
                    states[p] == if p in todo then joined[p] else ServerStep(SharedStep(norm, tuning), joined[p], Latest(inputs, p), tickInterval)
        decreases todo
      {
        var p :| p in todo;
        todo := todo - {p};
        StepPlayer(tickInterval, p, if p in latest then Some(latest[p]) else None);
      }
    }
  }

  // ---------------------------------------------------------------------------------------------
  // Reconciliation by itself
  // ---------------------------------------------------------------------------------------------

  ghost predicate Ordered(pending: seq<PendingInput>) {
    forall i, j :: 0 <= i < j < |pending| ==> pending[i].seqNo < pending[j].seqNo
  }

  ghost predicate WellFormed(c: Client) {
    Ordered(c.pending) && forall i :: 0 <= i < |c.pending| ==> c.pending[i].seqNo < c.nextSeq
  }

  lemma {:induction false} DropAckedKeepsNewer(pending: seq<PendingInput>, ack: nat)
    requires Ordered(pending)
    ensures var rest := DropAcked(pending, ack);
            && (forall i :: i in rest <==> i in pending && i.seqNo > ack)
            && Ordered(rest) && DropAcked(rest, ack) == rest
  {
    if pending != [] && pending[0].seqNo <= ack {
      DropAckedKeepsNewer(pending[1..], ack);
    } else if pending != [] {
      forall i | i in pending ensures i.seqNo > ack {
        var k :| 0 <= k < |pending| && pending[k] == i;
        assert k > 0 ==> pending[0].seqNo < pending[k].seqNo;
      }
    }
  }

  /** Whatever the snapshot: exactly the newer inputs stay, and the same snapshot again changes nothing. */
  lemma ReconcileIsIdempotent(move: Mover, c: Client, s: Snapshot)
    requires WellFormed(c)
    ensures var d := Reconcile(move, c, s);
            && (forall i :: i in d.pending <==> i in c.pending && i.seqNo > s.ack)
            && WellFormed(d) && Reconcile(move, d, s) == d
  {
    DropAckedKeepsNewer(c.pending, s.ack);
    var d := Reconcile(move, c, s);
    forall i | 0 <= i < |d.pending| ensures d.pending[i].seqNo < c.nextSeq {
      assert d.pending[i] in c.pending;
    }
  }

  lemma QueueKeepsWellFormed(move: Mover, cap: nat, c: Client, intent: Intent, fire: bool, dt: int)
    requires cap > 0 && WellFormed(c)
    ensures WellFormed(QueueInput(move, cap, c, intent, fire, dt))
    ensures |QueueInput(move, cap, c, intent, fire, dt).pending| <= Max(cap, |c.pending|)
  {
  }

  /** What can happen to a client by itself: eviction on a full queue and any snapshot whatever included. */
  datatype ClientEvent = Queue(intent: Intent, fire: bool, dt: int) | Receive(snapshot: Snapshot) | StartOver

  function StepClient(move: Mover, cap: nat, c: Client, e: ClientEvent): Client
    requires cap > 0
  {
    match e
    case Queue(intent, fire, dt) => QueueInput(move, cap, c, intent, fire, dt)
    case Receive(s) => Reconcile(move, c, s)
    case StartOver => NEW_CLIENT
  }

  function RunClient(move: Mover, cap: nat, events: seq<ClientEvent>): Client
    requires cap > 0
  {
    if events == [] then NEW_CLIENT else StepClient(move, cap, RunClient(move, cap, events[..|events| - 1]), events[|events| - 1])
  }

  /** Every client that can arise keeps its inputs in order, numbered below the next one, and within capacity. */
  lemma {:induction false} ClientRunsAreWellFormed(move: Mover, cap: nat, events: seq<ClientEvent>)
    requires cap > 0
    ensures var c := RunClient(move, cap, events); WellFormed(c) && |c.pending| <= cap
  {
    if events != [] {
      var n := |events| - 1;
      var c := RunClient(move, cap, events[..n]);
      ClientRunsAreWellFormed(move, cap, events[..n]);
      match events[n]
      case Queue(intent, fire, dt) => QueueKeepsWellFormed(move, cap, c, intent, fire, dt);
      case Receive(s) =>
        ReconcileIsIdempotent(move, c, s);
        DropAckedShortens(c.pending, s.ack);
      case StartOver =>
    }
  }

  lemma {:induction false} DropAckedShortens(pending: seq<PendingInput>, ack: nat)
    ensures |DropAcked(pending, ack)| <= |pending|
  {
    if pending != [] && pending[0].seqNo <= ack { DropAckedShortens(pending[1..], ack); }
  }

  /** So of every client that can arise a snapshot keeps exactly the newer inputs, and repeating it changes nothing. */
  lemma ReachableReconcileIsIdempotent(move: Mover, cap: nat, events: seq<ClientEvent>, s: Snapshot)
    requires cap > 0
    ensures var c, d := RunClient(move, cap, events), RunClient(move, cap, events + [Receive(s)]);
            && (forall i :: i in d.pending <==> i in c.pending && i.seqNo > s.ack)
            && RunClient(move, cap, events + [Receive(s), Receive(s)]) == d
  {
    var once, twice := events + [Receive(s)], events + [Receive(s), Receive(s)];
    assert once[..|events|] == events && twice[..|once|] == once;
    ClientRunsAreWellFormed(move, cap, events);
    ReconcileIsIdempotent(move, RunClient(move, cap, events), s);
  }

  // ---------------------------------------------------------------------------------------------
  // Client and server over a network
  // ---------------------------------------------------------------------------------------------

  /** One player's inputs so far, how many the server has applied, and how far acknowledgements have come. */
  datatype System = System(client: Client, sent: seq<PendingInput>, server: PlayerMotion, history: seq<PlayerMotion>, acked: nat)

  datatype Event =
    | Press(intent: Intent, fire: bool)
    | Tick(others: seq<PlayerInput>)
    | Deliver(snapshot: nat)

  function ToPlayerInput(player: nat, i: PendingInput): PlayerInput { PlayerInput(player, i.seqNo, i.intent) }

  function ToSnapshot(s: PlayerMotion): Snapshot { Snapshot(s.motion, s.speed, s.lastProcessed) }

  const BEGIN := System(NEW_CLIENT, [], JOINED, [JOINED], 0)

  /**
   * The player presses while there is room; the server applies the next input, and one only, of this
   * player among any inputs of others; a snapshot of any moment since the last one delivered arrives.
   */
  ghost predicate Enabled(cap: nat, player: nat, s: System, e: Event) {
    match e
    case Press(_, _) => |s.client.pending| < cap
    case Tick(others) => |s.history| <= |s.sent| && forall i :: i in others ==> i.player != player
    case Deliver(k) => s.acked <= k < |s.history|
  }

  function Next(move: Mover, cap: nat, player: nat, dt: int, s: System, e: Event): System
    requires cap > 0
    requires e.Tick? ==> 0 < |s.history| <= |s.sent|
    requires e.Deliver? ==> e.snapshot < |s.history|
  {
    match e
    case Press(intent, fire) =>
      var c := QueueInput(move, cap, s.client, intent, fire, dt);
      s.(client := c, sent := s.sent + [PendingInput(s.client.nextSeq, intent, fire, dt)])
    case Tick(others) =>
      var inputs := others + [ToPlayerInput(player, s.sent[|s.history| - 1])];
      var server := ServerStep(move, s.server, Latest(inputs, player), dt);
      s.(server := server, history := s.history + [server])
    case Deliver(k) =>
      s.(client := Reconcile(move, s.client, ToSnapshot(s.history[k])), acked := k)
  }

  ghost predicate Consistent(move: Mover, dt: int, s: System) {
    && (forall i :: 0 <= i < |s.sent| ==> s.sent[i].seqNo == i + 1 && s.sent[i].dt == dt)
    && s.client.nextSeq == |s.sent| + 1
    && s.acked < |s.history| <= |s.sent| + 1
    && s.client.state == Replay(move, START, s.sent)
    && s.client.pending == s.sent[s.acked..]
    && s.server == s.history[|s.history| - 1]
    && Trail(move, s.history, s.sent)
  }

  /** After each of its ticks the server was where the client had predicted to be. */
  ghost predicate Trail(move: Mover, history: seq<PlayerMotion>, sent: seq<PendingInput>) {
    |history| <= |sent| + 1 && forall k :: 0 <= k < |history| ==> IsServerAfter(move, history[k], sent[..k])
  }

  /** The server after those inputs is where the client predicted it would be. */
  predicate IsServerAfter(move: Mover, s: PlayerMotion, inputs: seq<PendingInput>) {
    var p := Replay(move, START, inputs);
    s == PlayerMotion(p.motion, p.speed, |inputs|) && p.lastInputSeq == |inputs|
  }

  lemma {:induction false} ReplaySplits(move: Mover, s: Predicted, a: seq<PendingInput>, b: seq<PendingInput>)
    ensures Replay(move, s, a + b) == Replay(move, Replay(move, s, a), b)
  {
    if b == [] {
      assert a + b == a;
    } else {
      var n := |b| - 1;
      assert (a + b)[..|a + b| - 1] == a + b[..n];
      ReplaySplits(move, s, a, b[..n]);
    }
  }

  lemma {:induction false} DropAckedSkips(sent: seq<PendingInput>, from: nat, k: nat)
    requires forall i :: 0 <= i < |sent| ==> sent[i].seqNo == i + 1
    requires from <= k <= |sent|
    ensures DropAcked(sent[from..], k) == sent[k..]
    decreases k - from
  {
    if from < k {
      assert sent[from..][1..] == sent[from + 1..];
      DropAckedSkips(sent, from + 1, k);
    }
  }

  /** Replaying what a snapshot has not seen, from that snapshot, is the whole prediction. */
  lemma ReplayFromSnapshot(move: Mover, m: PlayerMotion, sent: seq<PendingInput>, k: nat)
    requires k <= |sent| && IsServerAfter(move, m, sent[..k])
    ensures Replay(move, Predicted(m.motion, m.speed, m.lastProcessed), sent[k..]) == Replay(move, START, sent)
    ensures m.lastProcessed == k
  {
    ReplaySplits(move, START, sent[..k], sent[k..]);
    assert sent == sent[..k] + sent[k..];
  }

  /** A delivery puts the client exactly where it already was. */
  lemma DeliveryCorrectsNothing(move: Mover, dt: int, s: System, k: nat)
    requires Consistent(move, dt, s) && s.acked <= k < |s.history|
    ensures Reconcile(move, s.client, ToSnapshot(s.history[k])) == Client(s.client.state, s.sent[k..], s.client.nextSeq)
  {
    ReplayFromSnapshot(move, s.history[k], s.sent, k);
    DropAckedSkips(s.sent, s.acked, k);
  }

  lemma DeliveryIsConsistent(move: Mover, cap: nat, player: nat, dt: int, s: System, k: nat)
    requires cap > 0 && Consistent(move, dt, s) && s.acked <= k < |s.history|
    ensures Consistent(move, dt, Next(move, cap, player, dt, s, Deliver(k)))
  {
    DeliveryCorrectsNothing(move, dt, s, k);
    assert Next(move, cap, player, dt, s, Deliver(k)) ==
           s.(client := Client(s.client.state, s.sent[k..], s.client.nextSeq), acked := k);
  }

  lemma PressIsConsistent(move: Mover, cap: nat, player: nat, dt: int, s: System, intent: Intent, fire: bool)
    requires cap > 0 && Consistent(move, dt, s) && |s.client.pending| < cap
    ensures Consistent(move, dt, Next(move, cap, player, dt, s, Press(intent, fire)))
  {
    hide Trail;
    var n := Next(move, cap, player, dt, s, Press(intent, fire));
    assert n.sent[..|n.sent| - 1] == s.sent;
    assert n.sent[s.acked..] == s.sent[s.acked..] + [n.sent[|s.sent|]];
    TrailAfterPress(move, s.history, s.sent, n.sent[|s.sent|]);
  }

  lemma TrailAfterPress(move: Mover, history: seq<PlayerMotion>, sent: seq<PendingInput>, i: PendingInput)
    requires Trail(move, history, sent)
    ensures Trail(move, history, sent + [i])
  {
    hide IsServerAfter;
    forall k | 0 <= k < |history| ensures IsServerAfter(move, history[k], (sent + [i])[..k]) {
      assert (sent + [i])[..k] == sent[..k];
    }
  }

  lemma TickIsConsistent(move: Mover, cap: nat, player: nat, dt: int, s: System, others: seq<PlayerInput>)
    requires cap > 0 && Consistent(move, dt, s) && |s.history| <= |s.sent|
    ensures Consistent(move, dt, Next(move, cap, player, dt, s, Tick(others)))
  {
    var k := |s.history|;
    var i := s.sent[k - 1];
    assert IsServerAfter(move, s.history[k - 1], s.sent[..k - 1]);
    assert s.sent[..k][..k - 1] == s.sent[..k - 1] && s.sent[..k][k - 1] == i;
    var n := Next(move, cap, player, dt, s, Tick(others));
    assert IsServerAfter(move, n.server, s.sent[..k]);
  }

  /** A run and the systems it passes through. */
  ghost predicate IsRun(move: Mover, cap: nat, player: nat, dt: int, events: seq<Event>, systems: seq<System>)
    requires cap > 0
  {
    && |systems| == |events| + 1 && systems[0] == BEGIN
    && forall i :: 0 <= i < |events| ==>
         && Enabled(cap, player, systems[i], events[i])
         && (events[i].Tick? ==> |systems[i].history| > 0)
         && systems[i + 1] == Next(move, cap, player, dt, systems[i], events[i])
  }

  lemma {:induction false} RunsAreConsistent(move: Mover, cap: nat, player: nat, dt: int, events: seq<Event>, systems: seq<System>, n: nat)
    requires cap > 0 && IsRun(move, cap, player, dt, events, systems) && n <= |events|
    ensures Consistent(move, dt, systems[n])
  {
    if n > 0 {
      RunsAreConsistent(move, cap, player, dt, events, systems, n - 1);
      match events[n - 1]
      case Press(intent, fire) => PressIsConsistent(move, cap, player, dt, systems[n - 1], intent, fire);
      case Tick(others) => TickIsConsistent(move, cap, player, dt, systems[n - 1], others);
      case Deliver(k) => DeliveryIsConsistent(move, cap, player, dt, systems[n - 1], k);
    }
  }

  /**
   * At any delay, with snapshots dropped, repeated or late: as long as the server applies one input
   * per tick and acknowledgements do not go back, no reconciliation moves the predicted player.
   */
  lemma ReconciliationIsInvisible(norm: Norm, move: Mover, cap: nat, player: nat, dt: int, events: seq<Event>, systems: seq<System>, n: nat)
    requires IsNorm(norm) && cap > 0 && IsRun(move, cap, player, dt, events, systems)
    requires n < |events| && events[n].Deliver?
    ensures systems[n + 1].client.state == systems[n].client.state
    ensures var a, b := systems[n].client.state.motion, systems[n + 1].client.state.motion;
            norm(b.x - a.x, b.y - a.y) == 0.0
  {
    RunsAreConsistent(move, cap, player, dt, events, systems, n);
    DeliveryCorrectsNothing(move, dt, systems[n], events[n].snapshot);
    var m := systems[n].client.state.motion;
    NoDistance(norm, m.x - m.x, m.y - m.y);
  }

  lemma NoDistance(norm: Norm, dx: real, dy: real)
    requires IsNorm(norm) && dx == 0.0 && dy == 0.0
    ensures norm(dx, dy) == 0.0
  {
    RootMono(norm(dx, dy), 0.0);
  }

  /**
   * What any snapshot does, stale or not: the client ends where replaying the inputs the snapshot has seen and the
   * ones it still holds would take it. A stale one loses the inputs acknowledged since.
   */
  lemma DeliveryReplays(move: Mover, dt: int, s: System, k: nat)
    requires Consistent(move, dt, s) && k < |s.history|
    ensures var held := s.sent[Max(k, s.acked)..];
            Reconcile(move, s.client, ToSnapshot(s.history[k])) == Client(Replay(move, START, s.sent[..k] + held), held, s.client.nextSeq)
  {
    assert IsServerAfter(move, s.history[k], s.sent[..k]);
    if k < s.acked {
      assert s.client.pending == [] || s.client.pending[0].seqNo == s.acked + 1;
    } else {
      DropAckedSkips(s.sent, s.acked, k);
    }
    ReplaySplits(move, START, s.sent[..k], s.sent[Max(k, s.acked)..]);
  }

  const JUMP := Intent(0.0, 0.0, true, false, false)

  /**
   * Acknowledgements that go back do disturb. In this run the player jumps, the server applies the jump and
   * acknowledges it; then the snapshot from before it puts the airborne player back on the ground.
   */
  lemma StaleSnapshotDisturbs(norm: Norm, t: Tuning, cap: nat, player: nat, dt: int) returns (events: seq<Event>, systems: seq<System>)
    requires SaneTuning(t) && dt > 0 && cap > 0 && t.jumpVelocity > t.gravity * Seconds(dt)
    ensures IsRun(SharedStep(norm, t), cap, player, dt, events, systems) && |events| == 3
    ensures systems[3].acked == 1 && |systems[3].history| == 2
    ensures !systems[3].client.state.motion.grounded
    ensures Next(SharedStep(norm, t), cap, player, dt, systems[3], Deliver(0)).client.state.motion.grounded
  {
    var move := SharedStep(norm, t);
    var first := Next(move, cap, player, dt, BEGIN, Press(JUMP, false));
    var second := Next(move, cap, player, dt, first, Tick([]));
    var third := Next(move, cap, player, dt, second, Deliver(1));
    events, systems := [Press(JUMP, false), Tick([]), Deliver(1)], [BEGIN, first, second, third];
    assert IsRun(move, cap, player, dt, events, systems) by { hide SharedStep; }
    RunsAreConsistent(move, cap, player, dt, events, systems, 3);
    StaleJump(norm, t, dt, third);
  }

  lemma StaleJump(norm: Norm, t: Tuning, dt: int, s: System)
    requires SaneTuning(t) && dt > 0 && t.jumpVelocity > t.gravity * Seconds(dt)
    requires Consistent(SharedStep(norm, t), dt, s) && s.sent == [PendingInput(1, JUMP, false, dt)] && s.acked == 1 && |s.history| == 2
    ensures !s.client.state.motion.grounded
    ensures Reconcile(SharedStep(norm, t), s.client, ToSnapshot(s.history[0])).state.motion.grounded
  {
    var move := SharedStep(norm, t);
    DeliveryReplays(move, dt, s, 0);
    assert s.sent[..0] + s.sent[1..] == [];
    assert s.sent[..0] == [];
    assert Replay(move, START, s.sent) == ApplyInput(move, START, s.sent[0]);
    StepVertical(norm, AT_REST, JUMP, Seconds(dt), t);
  }


  // ---------------------------------------------------------------------------------------------
  // The other conditions are needed too
  // ---------------------------------------------------------------------------------------------

  /** A jump and then a step with hands off, as the player presses them. */
  function JumpThenNothing(dt: int): seq<ClientEvent> { [Queue(JUMP, false, dt), Queue(NO_INTENT, false, dt)] }

  lemma ClientSnoc(move: Mover, cap: nat, events: seq<ClientEvent>, e: ClientEvent)
    requires cap > 0
    ensures RunClient(move, cap, events + [e]) == StepClient(move, cap, RunClient(move, cap, events), e)
  {
    assert (events + [e])[..|events|] == events;
  }

  lemma JumpThenNothingRuns(move: Mover, cap: nat, dt: int)
    requires cap > 0
    ensures var first, second := PendingInput(1, JUMP, false, dt), PendingInput(2, NO_INTENT, false, dt);
            RunClient(move, cap, JumpThenNothing(dt)) ==
            Client(ApplyInput(move, ApplyInput(move, START, first), second), if cap == 1 then [second] else [first, second], 3)
  {
    var press, release := Queue(JUMP, false, dt), Queue(NO_INTENT, false, dt);
    var first, second := PendingInput(1, JUMP, false, dt), PendingInput(2, NO_INTENT, false, dt);
    ClientSnoc(move, cap, [], press);
    ClientSnoc(move, cap, [press], release);
    assert [] + [press] == [press] && [press] + [release] == JumpThenNothing(dt);
    assert [] + [first] == [first] && [first][1..] + [second] == [second] && [first] + [second] == [first, second];
    assert RunClient(move, cap, [press]) == Client(ApplyInput(move, START, first), [first], 2);
  }

  /** A strong enough jump is still in the air after the second step; without it the player stays on the ground. */
  lemma TwoStepsUp(norm: Norm, t: Tuning, dt: int, first: PendingInput, second: PendingInput)
    requires SaneTuning(t) && dt > 0 && t.jumpVelocity > 2.0 * (t.gravity * Seconds(dt))
    requires first.intent == JUMP && second.intent == NO_INTENT && first.dt == second.dt == dt
    ensures var move := SharedStep(norm, t);
            && !ApplyInput(move, ApplyInput(move, START, first), second).motion.grounded
            && ApplyInput(move, START, second).motion.grounded
  {
    hide Step, JumpAndFall;
    var one := Step(norm, AT_REST, JUMP, Seconds(dt), t);
    StepVertical(norm, AT_REST, JUMP, Seconds(dt), t);
    StepVertical(norm, one, NO_INTENT, Seconds(dt), t);
    StepVertical(norm, AT_REST, NO_INTENT, Seconds(dt), t);
    TwoFallsUp(one, Seconds(dt), t);
  }

  lemma TwoFallsUp(one: Motion, d: real, t: Tuning)
    requires SaneTuning(t) && d > 0.0 && t.jumpVelocity > 2.0 * (t.gravity * d)
    requires SameVertical(one, JumpAndFall(AT_REST, JUMP, d, t))
    ensures !JumpAndFall(one, NO_INTENT, d, t).grounded && JumpAndFall(AT_REST, NO_INTENT, d, t).grounded
  {
    var fall := t.gravity * d;
    assert fall > 0.0;
    ProductPositive(t.jumpVelocity - fall, d);
    ProductPositive(t.jumpVelocity - fall - fall, d);
  }

  /** The inputs of a list of intents, pressed one after the other. */
  function Pressed(intents: seq<Intent>, dt: int): seq<ClientEvent> {
    seq(|intents|, k requires 0 <= k < |intents| => Queue(intents[k], false, dt))
  }

  function Sent(intents: seq<Intent>, dt: int): seq<PendingInput> {
    seq(|intents|, k requires 0 <= k < |intents| => PendingInput(k + 1, intents[k], false, dt))
  }

  /** However many are pressed, all are predicted, and the newest stay, as many as there is room for. */
  lemma {:induction false} QueueKeepsTheNewest(move: Mover, cap: nat, intents: seq<Intent>, dt: int)
    requires cap > 0
    ensures RunClient(move, cap, Pressed(intents, dt)) ==
            Client(Replay(move, START, Sent(intents, dt)), Sent(intents, dt)[Max(0, |intents| - cap)..], |intents| + 1)
  {
    if intents != [] {
      hide RunClient, ApplyInput, Replay;
      var before, last := intents[..|intents| - 1], intents[|intents| - 1];
      QueueKeepsTheNewest(move, cap, before, dt);
      assert Pressed(intents, dt) == Pressed(before, dt) + [Queue(last, false, dt)];
      ClientSnoc(move, cap, Pressed(before, dt), Queue(last, false, dt));
      var newest := PendingInput(|intents|, last, false, dt);
      assert Sent(intents, dt) == Sent(before, dt) + [newest];
      ReplayOneMore(move, Sent(before, dt), newest);
      OneMoreKept(Sent(before, dt), newest, cap);
    }
  }

  lemma ReplayOneMore(move: Mover, inputs: seq<PendingInput>, newest: PendingInput)
    ensures Replay(move, START, inputs + [newest]) == ApplyInput(move, Replay(move, START, inputs), newest)
  {
    assert (inputs + [newest])[..|inputs|] == inputs;
  }

  lemma OneMoreKept<T>(all: seq<T>, newest: T, cap: nat)
    requires cap > 0
    ensures var kept := all[Max(0, |all| - cap)..];
            (if |kept| >= cap then kept[1..] else kept) + [newest] == (all + [newest])[Max(0, |all| + 1 - cap)..]
  {
  }

  /** A snapshot of the start replays just what the queue still holds: what was evicted is forgotten. */
  lemma EvictedIsForgotten(move: Mover, cap: nat, intents: seq<Intent>, dt: int)
    requires cap > 0
    ensures var events := Pressed(intents, dt);
            RunClient(move, cap, events + [Receive(ToSnapshot(JOINED))]).state ==
            Replay(move, START, Sent(intents, dt)[Max(0, |intents| - cap)..])
  {
    QueueKeepsTheNewest(move, cap, intents, dt);
    ClientSnoc(move, cap, Pressed(intents, dt), Receive(ToSnapshot(JOINED)));
    hide RunClient, Replay;
  }

  /** One intent and then as many steps with hands off as the queue has room for. */
  function ThenIdle(first: Intent, cap: nat): seq<Intent> { [first] + seq(cap, _ => NO_INTENT) }

  function Timed(intents: seq<Intent>, dt: int): seq<TimedInput> {
    seq(|intents|, k requires 0 <= k < |intents| => TimedInput(intents[k], Seconds(dt)))
  }

  lemma {:induction false} ReplayPlays(norm: Norm, t: Tuning, intents: seq<Intent>, dt: int)
    ensures Replay(SharedStep(norm, t), START, Sent(intents, dt)).motion == Play(norm, AT_REST, Timed(intents, dt), t)
  {
    hide Step;
    if intents != [] {
      var before := intents[..|intents| - 1];
      ReplayPlays(norm, t, before, dt);
      assert Sent(intents, dt)[..|intents| - 1] == Sent(before, dt);
      assert Timed(intents, dt)[..|intents| - 1] == Timed(before, dt);
    }
  }

  predicate AllIdle(inputs: seq<PendingInput>, dt: int) { forall i :: i in inputs ==> i.intent == NO_INTENT && i.dt == dt }

  lemma IdleTail(first: Intent, cap: nat, dt: int)
    ensures var inputs := Sent(ThenIdle(first, cap), dt);
            |inputs| == cap + 1 && inputs[0].intent == first && inputs[0].dt == dt && AllIdle(inputs[1..], dt)
  {
  }

  /** Hands off, a player on the ground stays there. */
  lemma {:induction false} IdleStaysDown(norm: Norm, t: Tuning, inputs: seq<PendingInput>, dt: int)
    requires SaneTuning(t) && dt > 0 && AllIdle(inputs, dt)
    ensures var m := Replay(SharedStep(norm, t), START, inputs).motion; m.grounded && Upright(m)
  {
    if inputs != [] {
      var before := inputs[..|inputs| - 1];
      IdleStaysDown(norm, t, before, dt);
      assert inputs[|inputs| - 1] in inputs;
      StepVertical(norm, Replay(SharedStep(norm, t), START, before).motion, NO_INTENT, Seconds(dt), t);
      hide Step;
    }
  }

  /**
   * Whatever the capacity, when a full queue evicts an unacknowledged jump whose flight is not over, the next snapshot
   * takes the jump back.
   */
  lemma EvictionDisturbs(norm: Norm, t: Tuning, cap: nat, dt: int)
    requires SaneTuning(t) && dt > 0 && cap > 0 && !LandsBy(cap + 1, Seconds(dt), t)
    ensures var move, events := SharedStep(norm, t), Pressed(ThenIdle(JUMP, cap), dt);
            && !RunClient(move, cap, events).state.motion.grounded
            && RunClient(move, cap, events + [Receive(ToSnapshot(JOINED))]).state.motion.grounded
  {
    var move, intents := SharedStep(norm, t), ThenIdle(JUMP, cap);
    hide SharedStep, RunClient, Replay, LandsBy;
    QueueKeepsTheNewest(move, cap, intents, dt);
    EvictedIsForgotten(move, cap, intents, dt);
    JumpStillFlies(norm, t, cap, dt);
    IdleTail(JUMP, cap, dt);
    IdleStaysDown(norm, t, Sent(intents, dt)[1..], dt);
  }

  lemma JumpStillFlies(norm: Norm, t: Tuning, cap: nat, dt: int)
    requires SaneTuning(t) && dt > 0 && !LandsBy(cap + 1, Seconds(dt), t)
    ensures !Replay(SharedStep(norm, t), START, Sent(ThenIdle(JUMP, cap), dt)).motion.grounded
  {
    hide SharedStep, Replay, Play, LandsBy, JumpHeight;
    var intents := ThenIdle(JUMP, cap);
    ReplayPlays(norm, t, intents, dt);
    forall n: nat | 0 < n < cap + 1 ensures !LandsBy(n, Seconds(dt), t) {
      if LandsBy(n, Seconds(dt), t) { LandsByLater(n, cap + 1, Seconds(dt), t); }
    }
    JumpFollowsClosedForm(norm, AT_REST, Timed(intents, dt), Seconds(dt), t);
  }

  lemma LandsByLater(n: nat, m: nat, dt: real, t: Tuning)
    requires SaneTuning(t) && dt > 0.0 && n <= m && LandsBy(n, dt, t)
    ensures LandsBy(m, dt, t)
  {
    ProductNonNegative(t.gravity, dt);
    ProductNonNegative(t.gravity * dt, m as real - n as real);
    assert t.gravity * dt * (m as real + 1.0) == t.gravity * dt * (n as real + 1.0) + t.gravity * dt * (m as real - n as real);
  }

  const WALK := Intent(1.0, 0.0, false, false, false)

  /** Moving in the direction of growing x, or standing. */
  predicate Onward(m: Motion) { m.vx >= 0.0 && m.x > 0.0 }

  predicate Standing(m: Motion) { m.vx == 0.0 && m.vy == 0.0 && m.x == 0.0 }

  lemma UnitNorm(norm: Norm, d: real)
    requires IsNorm(norm) && d >= 0.0
    ensures norm(d, 0.0) == d
  {
    SameSquareSameSize(norm(d, 0.0), d);
  }

  /** Hands off never turns a player round. */
  lemma IdleGoesOnward(norm: Norm, m: Motion, dt: real, t: Tuning)
    requires IsNorm(norm) && SaneTuning(t) && dt > 0.0 && Onward(m)
    ensures Onward(Step(norm, m, NO_INTENT, dt, t))
  {
    var i := NO_INTENT;
    assert SanitizeInput(norm, NO_INTENT) == i;
    assert Desired(i.moveX, i, t) == 0.0 && Desired(i.moveY, i, t) == 0.0;
    SteerForward(norm, m, i, dt, t);
    var s := Steer(norm, m, i, dt, t);
    BrakeForward(norm, s, i, dt, t);
    var b := Brake(norm, s, i, dt, t);
    ProductNonNegative(b.vx, dt);
  }

  lemma SteerForward(norm: Norm, m: Motion, i: Intent, dt: real, t: Tuning)
    requires IsNorm(norm) && SaneTuning(t) && dt > 0.0 && m.vx >= 0.0 && Desired(i.moveX, i, t) >= 0.0
    ensures var s := Steer(norm, m, i, dt, t); s.vx >= 0.0 && s.x == m.x
  {
    var d, mag := Desired(i.moveX, i, t), Gap(norm, m, Desired(i.moveX, i, t), Desired(i.moveY, i, t));
    if mag > FLOAT_EPSILON {
      ProductNonNegative(if m.grounded then t.accelGround else t.accelAir, dt);
      var scale := SteerScale(MaxDelta(m, dt, t), mag);
      assert 0.0 <= scale <= 1.0;
      ProductNonNegative(d, scale);
      ProductNonNegative(m.vx, 1.0 - scale);
      assert Toward(m.vx, d, scale) == m.vx * (1.0 - scale) + d * scale;
    }
  }

  lemma BrakeForward(norm: Norm, m: Motion, i: Intent, dt: real, t: Tuning)
    requires IsNorm(norm) && SaneTuning(t) && dt > 0.0 && m.vx >= 0.0
    ensures var b := Brake(norm, m, i, dt, t); b.vx >= 0.0 && b.x == m.x
  {
    var speed := HorizontalSpeed(norm, m);
    if speed > SPEED_EPSILON {
      assert BrakeScale(speed, dt, t) >= 0.0;
      ProductNonNegative(m.vx, BrakeScale(speed, dt, t));
    }
  }

  /** One step forward from rest gets somewhere. */
  lemma WalkGetsOnward(norm: Norm, dt: real, t: Tuning)
    requires IsNorm(norm) && SaneTuning(t) && dt > 0.0 && t.maxSpeedWalk > FLOAT_EPSILON
    ensures Onward(Step(norm, AT_REST, WALK, dt, t))
  {
    UnitNorm(norm, 1.0);
    UnitNorm(norm, t.maxSpeedWalk);
    assert SanitizeInput(norm, WALK) == WALK;
    assert Desired(WALK.moveX, WALK, t) == t.maxSpeedWalk && Desired(WALK.moveY, WALK, t) == 0.0;
    var s := Steer(norm, AT_REST, WALK, dt, t);
    assert Gap(norm, AT_REST, t.maxSpeedWalk, 0.0) == t.maxSpeedWalk;
    assert MaxDelta(AT_REST, dt, t) > 0.0;
    var scale := SteerScale(MaxDelta(AT_REST, dt, t), t.maxSpeedWalk);
    assert scale > 0.0;
    assert s.vx == t.maxSpeedWalk * scale > 0.0;
    assert s.vx * dt > 0.0;
  }

  lemma IdleStands(norm: Norm, m: Motion, dt: real, t: Tuning)
    requires IsNorm(norm) && SaneTuning(t) && dt > 0.0 && Standing(m)
    ensures Standing(Step(norm, m, NO_INTENT, dt, t))
  {
    UnitNorm(norm, 0.0);
    assert Desired(0.0, NO_INTENT, t) == 0.0;
  }

  lemma {:induction false} IdleKeepsStanding(norm: Norm, t: Tuning, inputs: seq<PendingInput>, dt: int)
    requires IsNorm(norm) && SaneTuning(t) && dt > 0 && AllIdle(inputs, dt)
    ensures Standing(Replay(SharedStep(norm, t), START, inputs).motion)
  {
    hide IsNorm, Step;
    if inputs != [] {
      var before := inputs[..|inputs| - 1];
      IdleKeepsStanding(norm, t, before, dt);
      assert inputs[|inputs| - 1] in inputs;
      IdleStands(norm, Replay(SharedStep(norm, t), START, before).motion, Seconds(dt), t);
    }
  }

  lemma {:induction false} WalkKeepsOnward(norm: Norm, t: Tuning, inputs: seq<PendingInput>, dt: int)
    requires IsNorm(norm) && SaneTuning(t) && dt > 0 && t.maxSpeedWalk > FLOAT_EPSILON
    requires inputs != [] && inputs[0].intent == WALK && inputs[0].dt == dt && AllIdle(inputs[1..], dt)
    ensures Onward(Replay(SharedStep(norm, t), START, inputs).motion)
    decreases |inputs|
  {
    hide IsNorm, Step;
    var n := |inputs| - 1;
    if n == 0 {
      assert inputs[..0] == [];
      WalkGetsOnward(norm, Seconds(dt), t);
    } else {
      assert inputs[..n][1..] == inputs[1..][..n - 1];
      WalkKeepsOnward(norm, t, inputs[..n], dt);
      assert inputs[n] == inputs[1..][n - 1];
      IdleGoesOnward(norm, Replay(SharedStep(norm, t), START, inputs[..n]).motion, Seconds(dt), t);
    }
  }

  /**
   * For every capacity: when the queue evicts an unacknowledged step forward, the next snapshot puts the player back where
   * it started, however long ago the step was.
   */
  lemma EvictedStepIsLost(norm: Norm, t: Tuning, cap: nat, dt: int)
    requires IsNorm(norm) && SaneTuning(t) && dt > 0 && cap > 0 && t.maxSpeedWalk > FLOAT_EPSILON
    ensures var move, events := SharedStep(norm, t), Pressed(ThenIdle(WALK, cap), dt);
            && RunClient(move, cap, events).state.motion.x > 0.0
            && RunClient(move, cap, events + [Receive(ToSnapshot(JOINED))]).state.motion.x == 0.0
  {
    hide IsNorm, SharedStep, RunClient, Replay;
    var move, intents := SharedStep(norm, t), ThenIdle(WALK, cap);
    QueueKeepsTheNewest(move, cap, intents, dt);
    EvictedIsForgotten(move, cap, intents, dt);
    IdleTail(WALK, cap, dt);
    WalkKeepsOnward(norm, t, Sent(intents, dt), dt);
    IdleKeepsStanding(norm, t, Sent(intents, dt)[1..], dt);
  }

  /** When two inputs fall into one frame, the server steps once, by the newer, and acknowledges both: the jump is lost. */
  lemma TwoInputsInOneFrameDisturb(norm: Norm, t: Tuning, cap: nat, player: nat, dt: int)
    requires SaneTuning(t) && dt > 0 && cap > 1 && t.jumpVelocity > 2.0 * (t.gravity * Seconds(dt))
    ensures var move, events := SharedStep(norm, t), JumpThenNothing(dt);
            var c := RunClient(move, cap, events);
            && |c.pending| == 2 && !c.state.motion.grounded
            && var frame := [ToPlayerInput(player, c.pending[0]), ToPlayerInput(player, c.pending[1])];
               var server := ServerStep(move, JOINED, Latest(frame, player), dt);
               RunClient(move, cap, events + [Receive(ToSnapshot(server))]).state.motion.grounded
  {
    var move, events := SharedStep(norm, t), JumpThenNothing(dt);
    var first, second := PendingInput(1, JUMP, false, dt), PendingInput(2, NO_INTENT, false, dt);
    JumpThenNothingRuns(move, cap, dt);
    TwoStepsUp(norm, t, dt, first, second);
    hide SharedStep, RunClient;
    var frame := [ToPlayerInput(player, first), ToPlayerInput(player, second)];
    assert Latest(frame, player) == Some(frame[1]);
    var server := ServerStep(move, JOINED, Some(frame[1]), dt);
    assert server.motion == ApplyInput(move, START, second).motion && server.lastProcessed == 2;
    ClientSnoc(move, cap, events, Receive(ToSnapshot(server)));
    assert [first, second][1..] == [second] && [second][1..] == [];
    assert DropAcked([second], 2) == [] && DropAcked([first, second], 2) == [];
  }
}
