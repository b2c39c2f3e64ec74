/**
 * First-in first-out queues per player, and the drain that three server components share: ascending
 * player ids, each queue front to back.
 */
module Queues {
  import opened Prelude
  import opened Ids

  type Queues<T> = map<nat, seq<T>>

  function QueueOf<T>(q: Queues<T>, id: nat): seq<T> { Get(q, id, []) }

  /** The queues of the listed ids, one after another. */
  ghost function Joined<T>(ids: seq<nat>, q: Queues<T>): seq<T> {
    if ids == [] then [] else Joined(ids[..|ids| - 1], q) + QueueOf(q, ids[|ids| - 1])
  }

  /** What a drain hands out. */
  ghost function Drained<T>(q: Queues<T>): seq<T> { Joined(InOrder(q.Keys), q) }

  lemma AscendingLast(s: seq<nat>)
    requires Ascending(s) && s != []
    ensures forall k :: k in s ==> k <= s[|s| - 1]
    ensures forall k :: k in s[..|s| - 1] <==> k in s && k != s[|s| - 1]
  {
    assert s == s[..|s| - 1] + [s[|s| - 1]];
  }

  lemma {:induction false} EmptyQueuesDoNotMatter<T>(ids: seq<nat>, kept: seq<nat>, q: Queues<T>)
    requires Ascending(ids) && Ascending(kept)
    requires forall k :: k in kept <==> k in ids && QueueOf(q, k) != []
    ensures Joined(kept, q) == Joined(ids, q)
  {
    if ids == [] {
    } else {
      var last := ids[|ids| - 1];
      AscendingLast(ids);
      if last in kept {
        AscendingLast(kept);
        assert kept[|kept| - 1] in ids;
        assert kept[|kept| - 1] == last;
        EmptyQueuesDoNotMatter(ids[..|ids| - 1], kept[..|kept| - 1], q);
      } else {
        EmptyQueuesDoNotMatter(ids[..|ids| - 1], kept, q);
      }
    }
  }

  method PopAll<T>(start: seq<T>, waiting: seq<T>) returns (drained: seq<T>)
    ensures drained == start + waiting
  {
    drained := start;
    var queue := waiting;
    while queue != []
      invariant start + waiting == drained + queue
      decreases |queue|
    {
      drained := drained + [queue[0]];
      queue := queue[1..];
    }
  }

  method DrainDeterministic<T>(q: Queues<T>) returns (drained: seq<T>)
    ensures drained == Drained(q)
  {
    var waiting := set id | id in q && q[id] != [];
    var ids := SortIds(waiting);
    drained := [];
    for i := 0 to |ids|
      invariant drained == Joined(ids[..i], q)
    {
      assert ids[i] in waiting;
      drained := PopAll(drained, q[ids[i]]);
      assert ids[..i + 1][..i] == ids[..i];
    }
    assert ids[..|ids|] == ids;
    EmptyQueuesDoNotMatter(InOrder(q.Keys), ids, q);
  }

  // ---------------------------------------------------------------------------------------------
  // How many wait
  // ---------------------------------------------------------------------------------------------

  ghost function Waiting<T>(q: Queues<T>): nat { |Drained(q)| }

  lemma {:induction false} JoinedLengthWithout<T>(ids: seq<nat>, q: Queues<T>, r: Queues<T>, id: nat)
    requires Ascending(ids) && forall k :: k != id ==> QueueOf(q, k) == QueueOf(r, k)
    ensures |Joined(ids, r)| == |Joined(ids, q)| + if id in ids then |QueueOf(r, id)| - |QueueOf(q, id)| else 0
  {
    if ids != [] {
      var n := |ids| - 1;
      assert ids == ids[..n] + [ids[n]];
      assert ids[n] !in ids[..n];
      JoinedLengthWithout(ids[..n], q, r, id);
    }
  }

  /** Changing one queue changes the count by exactly that queue's change. */
  lemma WaitingChanges<T>(q: Queues<T>, r: Queues<T>, id: nat)
    requires forall k :: k != id ==> (k in q <==> k in r) && QueueOf(q, k) == QueueOf(r, k)
    ensures Waiting(r) == Waiting(q) + |QueueOf(r, id)| - |QueueOf(q, id)|
  {
    var all := InOrder(q.Keys + r.Keys + {id});
    JoinedLengthWithout(all, q, r, id);
    OnlyKeysMatter(all, InOrder(q.Keys), q);
    OnlyKeysMatter(all, InOrder(r.Keys), r);
  }

  lemma OnlyKeysMatter<T>(all: seq<nat>, keys: seq<nat>, q: Queues<T>)
    requires Ascending(all) && Ascending(keys)
    requires forall k :: k in keys <==> k in q
    requires forall k :: k in q ==> k in all
    ensures Joined(all, q) == Joined(keys, q)
  {
    var kept := InOrder(set k | k in q && q[k] != []);
    EmptyQueuesDoNotMatter(all, kept, q);
    EmptyQueuesDoNotMatter(keys, kept, q);
  }

  lemma WaitingAfterEnqueue<T>(q: Queues<T>, id: nat, x: T)
    ensures Waiting(q[id := QueueOf(q, id) + [x]]) == Waiting(q) + 1
  {
    WaitingChanges(q, q[id := QueueOf(q, id) + [x]], id);
  }

  lemma WaitingAfterClear<T>(q: Queues<T>, id: nat)
    ensures Waiting(q - {id}) == Waiting(q) - |QueueOf(q, id)|
  {
    WaitingChanges(q, q - {id}, id);
  }

  lemma WaitingNothing<T>()
    ensures Waiting<T>(map[]) == 0
  {
    assert InOrder({}) == [];
  }

  // ---------------------------------------------------------------------------------------------
  // Order inside a drain
  // ---------------------------------------------------------------------------------------------

  /** Each queue holds its own player's items, by increasing number. */
  ghost predicate InQueueOrder<T>(q: Queues<T>, owner: T -> nat, number: T -> nat) {
    forall p :: p in q ==> OwnInOrder(q[p], p, owner, number)
  }

  ghost predicate OwnInOrder<T>(s: seq<T>, p: nat, owner: T -> nat, number: T -> nat) {
    && (forall i :: 0 <= i < |s| ==> owner(s[i]) == p)
    && (forall i, j :: 0 <= i < j < |s| ==> number(s[i]) < number(s[j]))
  }

  predicate OwnerThenNumber<T>(a: T, b: T, owner: T -> nat, number: T -> nat) {
    owner(a) < owner(b) || (owner(a) == owner(b) && number(a) < number(b))
  }

  ghost predicate DrainOrder<T>(s: seq<T>, owner: T -> nat, number: T -> nat) {
    forall i, j :: 0 <= i < j < |s| ==> OwnerThenNumber(s[i], s[j], owner, number)
  }

  /** A drain comes by owner, and by number within an owner. */
  lemma {:induction false} JoinedInOrder<T>(ids: seq<nat>, q: Queues<T>, owner: T -> nat, number: T -> nat)
    requires Ascending(ids) && InQueueOrder(q, owner, number)
    ensures DrainOrder(Joined(ids, q), owner, number)
    ensures forall x :: x in Joined(ids, q) ==> owner(x) in ids && x in QueueOf(q, owner(x))
  {
    if ids != [] {
      var last := ids[|ids| - 1];
      AscendingLast(ids);
      JoinedInOrder(ids[..|ids| - 1], q, owner, number);
      var front, queue := Joined(ids[..|ids| - 1], q), QueueOf(q, last);
      var s := front + queue;
      forall i, j | 0 <= i < j < |s| ensures OwnerThenNumber(s[i], s[j], owner, number) {
        if i < |front| { assert s[i] in front; } else { assert s[i] == queue[i - |front|]; }
        if j >= |front| { assert s[j] == queue[j - |front|]; }
      }
    }
  }

  lemma DrainedInOrder<T>(q: Queues<T>, owner: T -> nat, number: T -> nat)
    requires InQueueOrder(q, owner, number)
    ensures DrainOrder(Drained(q), owner, number)
    ensures forall x :: x in Drained(q) ==> x in QueueOf(q, owner(x))
  {
    JoinedInOrder(InOrder(q.Keys), q, owner, number);
  }

  /** Appending something newer keeps the order. */
  lemma AppendKeepsOrder<T>(q: Queues<T>, x: T, owner: T -> nat, number: T -> nat)
    requires InQueueOrder(q, owner, number)
    requires var s := QueueOf(q, owner(x)); s == [] || number(s[|s| - 1]) < number(x)
    ensures InQueueOrder(q[owner(x) := QueueOf(q, owner(x)) + [x]], owner, number)
  {
    var s := QueueOf(q, owner(x));
    assert OwnInOrder(s, owner(x), owner, number);
    forall i | 0 <= i < |s| ensures number(s[i]) < number(x) {
      assert i < |s| - 1 ==> number(s[i]) < number(s[|s| - 1]);
    }
    assert OwnInOrder(s + [x], owner(x), owner, number);
  }
}
