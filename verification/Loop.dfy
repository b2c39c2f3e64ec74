/** server/src/AuthoritativeLoop.cpp: the tick schedule and the queues of player inputs. */
module Loop {
  import opened Prelude
  import opened Ids
  import opened Queues
  import opened Prediction

  datatype Config = Config(tickRateHz: nat, inputQueueCapacity: nat, snapshotIntervalTicks: nat)

  datatype EnqueueStatus = Accepted | QueueFull | OutOfOrder

  datatype Frame = Frame(tick: nat, inputs: seq<PlayerInput>, snapshotDue: bool)

  function SanitizeConfig(c: Config): Config {
    Config(if c.tickRateHz == 0 then 30 else c.tickRateHz,
           if c.inputQueueCapacity == 0 then 1 else c.inputQueueCapacity,
           if c.snapshotIntervalTicks == 0 then 1 else c.snapshotIntervalTicks)
  }

  function TickInterval(hz: nat): (ns: int)
    requires hz > 0
    ensures ns > 0
  {
    if NANOS_PER_SECOND / hz <= 0 then 1 else NANOS_PER_SECOND / hz
  }

  // ---------------------------------------------------------------------------------------------
  // The loop as a value
  // ---------------------------------------------------------------------------------------------

  datatype LoopState = LoopState(tick: nat, deadline: int, pending: int, queues: Queues<PlayerInput>, lastSeq: map<nat, nat>)

  /** Why an input is turned away, if it is. */
  function Verdict(capacity: nat, s: LoopState, i: PlayerInput): EnqueueStatus {
    var queue := QueueOf(s.queues, i.player);
    if i.player in s.lastSeq && i.seqNo <= s.lastSeq[i.player] then OutOfOrder
    else if queue != [] && i.seqNo <= queue[|queue| - 1].seqNo then OutOfOrder
    else if s.pending >= capacity then QueueFull
    else Accepted
  }

  function Enqueue(capacity: nat, s: LoopState, i: PlayerInput): LoopState {
    if Verdict(capacity, s, i) != Accepted then s
    else s.(pending := s.pending + 1, queues := s.queues[i.player := QueueOf(s.queues, i.player) + [i]], lastSeq := s.lastSeq[i.player := i.seqNo])
  }

  function Clear(s: LoopState, player: nat): LoopState {
    s.(pending := s.pending - |QueueOf(s.queues, player)|, queues := s.queues - {player}, lastSeq := s.lastSeq - {player})
  }

  ghost function OneTick(interval: int, cadence: nat, s: LoopState): (LoopState, Frame)
    requires cadence > 0
  {
    (s.(tick := s.tick + 1, deadline := s.deadline + interval, pending := s.pending - |Drained(s.queues)|, queues := map[]),
     Frame(s.tick + 1, Drained(s.queues), (s.tick + 1) % cadence == 0))
  }

  ghost function Advance(interval: int, cadence: nat, s: LoopState, now: int): (LoopState, seq<Frame>)
    requires interval > 0 && cadence > 0
    decreases now - s.deadline
  {
    if now < s.deadline then (s, [])
    else
      var (next, frame) := OneTick(interval, cadence, s);
      var (end, frames) := Advance(interval, cadence, next, now);
      (end, [frame] + frames)
  }

  class AuthoritativeLoop {
    const config: Config
    const tickInterval: int
    var tickCounter: nat
    var nextTickDeadline: int
    var pendingInputCount: int
    var inputQueues: Queues<PlayerInput>
    var lastInputSeq: map<nat, nat>

    ghost function State(): LoopState
      reads this
    {
      LoopState(tickCounter, nextTickDeadline, pendingInputCount, inputQueues, lastInputSeq)
    }

    ghost predicate Valid() { tickInterval > 0 && config.snapshotIntervalTicks > 0 && config.inputQueueCapacity > 0 }

    constructor (config: Config, start: int)
      ensures Valid() && this.config == SanitizeConfig(config) && tickInterval == TickInterval(this.config.tickRateHz)
      ensures State() == LoopState(0, start + tickInterval, 0, map[], map[])
    {
      this.config := SanitizeConfig(config);
      this.tickInterval := TickInterval(SanitizeConfig(config).tickRateHz);
      tickCounter, pendingInputCount := 0, 0;
      inputQueues, lastInputSeq := map[], map[];
      nextTickDeadline := start + TickInterval(SanitizeConfig(config).tickRateHz);
    }

    method Reset(start: int)
      requires Valid()
      modifies this
      ensures State() == LoopState(0, start + tickInterval, 0, map[], map[])
    {
      tickCounter, pendingInputCount := 0, 0;
      inputQueues, lastInputSeq := map[], map[];
      nextTickDeadline := start + tickInterval;
    }

    method EnqueueInput(input: PlayerInput) returns (status: EnqueueStatus)
      requires Valid()
      modifies this
      ensures status == Verdict(config.inputQueueCapacity, old(State()), input)
      ensures State() == Enqueue(config.inputQueueCapacity, old(State()), input)
    {
      if input.player in lastInputSeq && input.seqNo <= lastInputSeq[input.player] {
        return OutOfOrder;
      }
      if input.player in inputQueues && inputQueues[input.player] != [] {
        var queue := inputQueues[input.player];
        if input.seqNo <= queue[|queue| - 1].seqNo {
          return OutOfOrder;
        }
      }
      if pendingInputCount >= config.inputQueueCapacity {
        return QueueFull;
      }
      inputQueues := inputQueues[input.player := QueueOf(inputQueues, input.player) + [input]];
      lastInputSeq := lastInputSeq[input.player := input.seqNo];
      pendingInputCount := pendingInputCount + 1;
      return EnqueueStatus.Accepted;
    }

    method ClearPlayer(player: nat)
      requires Valid()
      modifies this
      ensures State() == Clear(old(State()), player)
    {
      if player in inputQueues {
        pendingInputCount := pendingInputCount - |inputQueues[player]|;
      }
      inputQueues := inputQueues - {player};
      lastInputSeq := lastInputSeq - {player};
    }

    method AdvanceTo(now: int) returns (frames: seq<Frame>)
      requires Valid()
      modifies this
      ensures var (end, all) := Advance(tickInterval, config.snapshotIntervalTicks, old(State()), now);
              State() == end && frames == all
    {
      frames := [];
      while now >= nextTickDeadline
        invariant Valid()
        invariant var (end, rest) := Advance(tickInterval, config.snapshotIntervalTicks, State(), now);
                  var (end', all) := Advance(tickInterval, config.snapshotIntervalTicks, old(State()), now);
                  end == end' && frames + rest == all
        decreases now - nextTickDeadline
      {
        ghost var (next, frame) := OneTick(tickInterval, config.snapshotIntervalTicks, State());
        ghost var (end, rest) := Advance(tickInterval, config.snapshotIntervalTicks, next, now);
        tickCounter := tickCounter + 1;
        var inputs := DrainDeterministic(inputQueues);
        pendingInputCount := pendingInputCount - |inputs|;
        inputQueues := map[];
        var due := tickCounter % config.snapshotIntervalTicks == 0;
        assert frames + ([frame] + rest) == (frames + [frame]) + rest;
        frames := frames + [Frame(tickCounter, inputs, due)];
        nextTickDeadline := nextTickDeadline + tickInterval;
        assert State() == next;
      }
    }
  }

  // ---------------------------------------------------------------------------------------------
  // The schedule
  // ---------------------------------------------------------------------------------------------

  ghost predicate OnSchedule(start: int, interval: int, s: LoopState) {
    s.deadline == start + (s.tick + 1) * interval
  }

  /** The tick counter is the number of whole intervals since the start, and never goes back. */
  lemma {:induction false} TicksAreWholeIntervals(start: int, interval: int, cadence: nat, s: LoopState, now: int)
    requires interval > 0 && cadence > 0 && OnSchedule(start, interval, s)
    ensures var (end, frames) := Advance(interval, cadence, s, now);
            && end.tick == Max(s.tick, (now - start) / interval)
            && OnSchedule(start, interval, end) && now < end.deadline
            && |frames| == end.tick - s.tick
    decreases now - s.deadline
  {
    if now < s.deadline {
    } else {
      var (next, _) := OneTick(interval, cadence, s);
      assert (s.tick + 1 + 1) * interval == (s.tick + 1) * interval + interval;
      TicksAreWholeIntervals(start, interval, cadence, next, now);
      QuotientAtLeast(now - start, interval, s.tick + 1);
    }
  }

  lemma QuotientAtLeast(a: int, k: int, n: int)
    requires k > 0 && a >= n * k
    ensures a / k >= n
  {
    assert a < (a / k + 1) * k;
    MulCancels(n, a / k + 1, k);
  }

  /** Polling the clock once more in between changes neither the frames nor the outcome. */
  lemma {:induction false} AdvanceSplits(interval: int, cadence: nat, s: LoopState, a: int, b: int)
    requires interval > 0 && cadence > 0 && a <= b
    ensures var (mid, first) := Advance(interval, cadence, s, a);
            var (end, second) := Advance(interval, cadence, mid, b);
            var (end', all) := Advance(interval, cadence, s, b);
            end == end' && first + second == all
    decreases a - s.deadline
  {
    if a >= s.deadline {
      var (next, frame) := OneTick(interval, cadence, s);
      AdvanceSplits(interval, cadence, next, a, b);
      var (mid, first) := Advance(interval, cadence, next, a);
      var (end, second) := Advance(interval, cadence, mid, b);
      assert [frame] + (first + second) == ([frame] + first) + second;
    }
  }

  // ---------------------------------------------------------------------------------------------
  // Delivery
  // ---------------------------------------------------------------------------------------------

  function OfPlayer(inputs: seq<PlayerInput>, player: nat): seq<PlayerInput> {
    if inputs == [] then []
    else
      var last := inputs[|inputs| - 1];
      OfPlayer(inputs[..|inputs| - 1], player) + if last.player == player then [last] else []
  }

  ghost predicate Increasing(inputs: seq<PlayerInput>) {
    forall i, j :: 0 <= i < j < |inputs| ==> inputs[i].seqNo < inputs[j].seqNo
  }

  function InputPlayer(i: PlayerInput): nat { i.player }

  function InputNumber(i: PlayerInput): nat { i.seqNo }

  ghost predicate QueuesInOrder(q: Queues<PlayerInput>) { InQueueOrder(q, InputPlayer, InputNumber) }

  lemma {:induction false} OfPlayerSplits(a: seq<PlayerInput>, b: seq<PlayerInput>, player: nat)
    ensures OfPlayer(a + b, player) == OfPlayer(a, player) + OfPlayer(b, player)
  {
    if b == [] {
      assert a + b == a;
    } else {
      assert (a + b)[..|a + b| - 1] == a + b[..|b| - 1];
      OfPlayerSplits(a, b[..|b| - 1], player);
    }
  }

  lemma {:induction false} OfPlayerOwn(s: seq<PlayerInput>, owner: nat, player: nat)
    requires forall i :: 0 <= i < |s| ==> s[i].player == owner
    ensures OfPlayer(s, player) == if owner == player then s else []
  {
    if s != [] {
      OfPlayerOwn(s[..|s| - 1], owner, player);
      assert s == s[..|s| - 1] + [s[|s| - 1]];
    }
  }

  /** A drain hands each player's queue out whole and in order. */
  lemma {:induction false} JoinedOfPlayer(ids: seq<nat>, q: Queues<PlayerInput>, player: nat)
    requires Ascending(ids) && QueuesInOrder(q)
    ensures OfPlayer(Joined(ids, q), player) == if player in ids then QueueOf(q, player) else []
  {
    if ids != [] {
      var last := ids[|ids| - 1];
      AscendingLast(ids);
      JoinedOfPlayer(ids[..|ids| - 1], q, player);
      OfPlayerSplits(Joined(ids[..|ids| - 1], q), QueueOf(q, last), player);
      assert last in q ==> OwnInOrder(q[last], last, InputPlayer, InputNumber);
      assert forall i :: 0 <= i < |QueueOf(q, last)| ==> InputPlayer(QueueOf(q, last)[i]) == last;
      OfPlayerOwn(QueueOf(q, last), last, player);
    }
  }

  /** By player, and by sequence number within a player. */
  ghost predicate SortedInputs(s: seq<PlayerInput>) { DrainOrder(s, InputPlayer, InputNumber) }

  /** What one player had accepted and what was handed out for it, since it was last cleared. */
  datatype Log = Log(accepted: seq<PlayerInput>, delivered: seq<PlayerInput>)

  datatype Event = Send(input: PlayerInput) | Drop(player: nat) | Poll(now: int)

  ghost function StepState(interval: int, cadence: nat, capacity: nat, s: LoopState, e: Event): LoopState
    requires interval > 0 && cadence > 0
  {
    match e
    case Send(i) => Enqueue(capacity, s, i)
    case Drop(p) => Clear(s, p)
    case Poll(now) => Advance(interval, cadence, s, now).0
  }

  function FrameInputs(frames: seq<Frame>): seq<PlayerInput> {
    if frames == [] then [] else frames[0].inputs + FrameInputs(frames[1..])
  }

  ghost function StepLog(interval: int, cadence: nat, capacity: nat, s: LoopState, e: Event, player: nat, log: Log): Log
    requires interval > 0 && cadence > 0
  {
    match e
    case Send(i) => if i.player == player && Verdict(capacity, s, i) == Accepted then log.(accepted := log.accepted + [i]) else log
    case Drop(p) => if p == player then Log([], []) else log
    case Poll(now) => log.(delivered := log.delivered + OfPlayer(FrameInputs(Advance(interval, cadence, s, now).1), player))
  }

  ghost predicate Counted(capacity: nat, s: LoopState) { s.pending == Waiting(s.queues) && s.pending <= capacity }

  lemma {:induction false} AdvanceIsCounted(interval: int, cadence: nat, capacity: nat, s: LoopState, now: int)
    requires interval > 0 && cadence > 0 && Counted(capacity, s)
    ensures Counted(capacity, Advance(interval, cadence, s, now).0)
    decreases now - s.deadline
  {
    if now >= s.deadline {
      WaitingNothing<PlayerInput>();
      AdvanceIsCounted(interval, cadence, capacity, OneTick(interval, cadence, s).0, now);
    }
  }

  lemma StepIsCounted(interval: int, cadence: nat, capacity: nat, s: LoopState, e: Event)
    requires interval > 0 && cadence > 0 && Counted(capacity, s)
    ensures Counted(capacity, StepState(interval, cadence, capacity, s, e))
  {
    hide Waiting, Advance;
    match e
    case Send(i) => WaitingAfterEnqueue(s.queues, i.player, i);
    case Drop(p) => WaitingAfterClear(s.queues, p);
    case Poll(now) => AdvanceIsCounted(interval, cadence, capacity, s, now);
  }

  /** In every run the pending counter is the number of queued inputs, and never above the capacity. */
  lemma {:induction false} PendingIsCounted(interval: int, cadence: nat, capacity: nat, start: int, events: seq<Event>)
    requires interval > 0 && cadence > 0
    ensures Counted(capacity, RunState(interval, cadence, capacity, start, events))
  {
    if events == [] {
      WaitingNothing<PlayerInput>();
    } else {
      PendingIsCounted(interval, cadence, capacity, start, events[..|events| - 1]);
      StepIsCounted(interval, cadence, capacity, RunState(interval, cadence, capacity, start, events[..|events| - 1]), events[|events| - 1]);
    }
  }

  /** Delivered so far, then still queued, is exactly what was accepted, in increasing order. */
  ghost predicate Accounted(s: LoopState, player: nat, log: Log) {
    && QueuesInOrder(s.queues)
    && log.accepted == log.delivered + QueueOf(s.queues, player)
    && Increasing(log.accepted)
    && (player in s.lastSeq <==> log.accepted != [])
    && (log.accepted != [] ==> s.lastSeq[player] == log.accepted[|log.accepted| - 1].seqNo)
  }

  lemma {:induction false} AdvanceDeliversQueues(interval: int, cadence: nat, s: LoopState, now: int, player: nat)
    requires interval > 0 && cadence > 0 && QueuesInOrder(s.queues)
    ensures var (end, frames) := Advance(interval, cadence, s, now);
            && OfPlayer(FrameInputs(frames), player) + QueueOf(end.queues, player) == QueueOf(s.queues, player)
            && end.lastSeq == s.lastSeq && QueuesInOrder(end.queues)
    decreases now - s.deadline
  {
    if now >= s.deadline {
      hide InOrder, Joined;
      var (next, frame) := OneTick(interval, cadence, s);
      AdvanceDeliversQueues(interval, cadence, next, now, player);
      var (end, frames) := Advance(interval, cadence, next, now);
      assert ([frame] + frames)[1..] == frames;
      OfPlayerSplits(frame.inputs, FrameInputs(frames), player);
      JoinedOfPlayer(InOrder(s.queues.Keys), s.queues, player);
    }
  }

  lemma SendIsAccounted(capacity: nat, s: LoopState, i: PlayerInput, player: nat, log: Log)
    requires Accounted(s, player, log)
    ensures Accounted(Enqueue(capacity, s, i), player,
                      if i.player == player && Verdict(capacity, s, i) == Accepted then log.(accepted := log.accepted + [i]) else log)
  {
    if Verdict(capacity, s, i) == Accepted {
      AppendKeepsOrder(s.queues, i, InputPlayer, InputNumber);
      if i.player == player {
        assert log.accepted + [i] == log.delivered + (QueueOf(s.queues, player) + [i]);
        assert Increasing(log.accepted + [i]);
      }
    }
  }

  lemma DropIsAccounted(s: LoopState, p: nat, player: nat, log: Log)
    requires Accounted(s, player, log)
    ensures Accounted(Clear(s, p), player, if p == player then Log([], []) else log)
  {
  }

  lemma PollIsAccounted(interval: int, cadence: nat, s: LoopState, now: int, player: nat, log: Log)
    requires interval > 0 && cadence > 0 && Accounted(s, player, log)
    ensures var (end, frames) := Advance(interval, cadence, s, now);
            Accounted(end, player, log.(delivered := log.delivered + OfPlayer(FrameInputs(frames), player)))
  {
    hide Advance, FrameInputs, OfPlayer;
    AdvanceDeliversQueues(interval, cadence, s, now, player);
    var (end, frames) := Advance(interval, cadence, s, now);
    assert log.delivered + (OfPlayer(FrameInputs(frames), player) + QueueOf(end.queues, player))
           == (log.delivered + OfPlayer(FrameInputs(frames), player)) + QueueOf(end.queues, player);
  }

  lemma StepIsAccounted(interval: int, cadence: nat, capacity: nat, s: LoopState, e: Event, player: nat, log: Log)
    requires interval > 0 && cadence > 0 && Accounted(s, player, log)
    ensures Accounted(StepState(interval, cadence, capacity, s, e), player, StepLog(interval, cadence, capacity, s, e, player, log))
  {
    match e
    case Send(i) => SendIsAccounted(capacity, s, i, player, log);
    case Drop(p) => DropIsAccounted(s, p, player, log);
    case Poll(now) => PollIsAccounted(interval, cadence, s, now, player, log);
  }

  ghost function RunState(interval: int, cadence: nat, capacity: nat, start: int, events: seq<Event>): LoopState
    requires interval > 0 && cadence > 0
  {
    if events == [] then LoopState(0, start + interval, 0, map[], map[])
    else StepState(interval, cadence, capacity, RunState(interval, cadence, capacity, start, events[..|events| - 1]), events[|events| - 1])
  }

  ghost function RunLog(interval: int, cadence: nat, capacity: nat, start: int, events: seq<Event>, player: nat): Log
    requires interval > 0 && cadence > 0
  {
    if events == [] then Log([], [])
    else StepLog(interval, cadence, capacity, RunState(interval, cadence, capacity, start, events[..|events| - 1]),
                 events[|events| - 1], player, RunLog(interval, cadence, capacity, start, events[..|events| - 1], player))
  }

  /**
   * In every run, for every player: since its last clear, the inputs handed out followed by those
   * still queued are the accepted ones, each once, and their sequence numbers strictly increase.
   */
  lemma {:induction false} DeliveredExactlyOnce(interval: int, cadence: nat, capacity: nat, start: int, events: seq<Event>, player: nat)
    requires interval > 0 && cadence > 0
    ensures Accounted(RunState(interval, cadence, capacity, start, events), player,
                      RunLog(interval, cadence, capacity, start, events, player))
  {
    if events != [] {
      var rest := events[..|events| - 1];
      DeliveredExactlyOnce(interval, cadence, capacity, start, rest, player);
      StepIsAccounted(interval, cadence, capacity, RunState(interval, cadence, capacity, start, rest), events[|events| - 1],
                      player, RunLog(interval, cadence, capacity, start, rest, player));
    }
  }

  /** A frame names each (player, sequence number) once, in order, and the last of a player is its newest. */
  lemma FrameIsSorted(q: Queues<PlayerInput>)
    requires QueuesInOrder(q)
    ensures SortedInputs(Drained(q))
  {
    DrainedInOrder(q, InputPlayer, InputNumber);
  }

  /** So the movement step, which takes the last input of a player in the frame, takes the newest. */
  lemma {:induction false} LatestIsNewest(inputs: seq<PlayerInput>, player: nat)
    requires SortedInputs(inputs)
    ensures match Latest(inputs, player)
            case Some(i) => i in inputs && i.player == player && forall j :: j in inputs && j.player == player ==> j.seqNo <= i.seqNo
            case None => forall j :: j in inputs ==> j.player != player
  {
    if inputs != [] {
      var n := |inputs| - 1;
      assert inputs == inputs[..n] + [inputs[n]];
      LatestIsNewest(inputs[..n], player);
      forall j | j in inputs[..n] ensures OwnerThenNumber(j, inputs[n], InputPlayer, InputNumber) {
        var k :| 0 <= k < n && inputs[..n][k] == j;
      }
    }
  }
}
