/**
 * client/src/ChunkSyncApplier.cpp, lines 74-130: the client applies the server's deltas; and the
 * protocol as a whole: an edit, a move and an update in any order leave the client in step.
 */
module ChunkSync {
  import opened Prelude
  import opened ChunkStore
  import opened PoiStamps
  import opened WorldReference
  import opened VoxelWorld
  import opened Replication

  /** What the client holds: its loaded chunks and the revision it knows of each. */
  datatype View = View(loaded: set<ChunkCoord>, revisions: map<ChunkCoord, nat>)

  function ApplyRemoved(v: View, entries: seq<Entry>): View {
    if entries == [] then v
    else
      var w := ApplyRemoved(v, entries[..|entries| - 1]);
      var k := entries[|entries| - 1].coord;
      View(w.loaded - {k}, w.revisions - {k})
  }

  function ApplyAddedLike(v: View, entries: seq<Entry>): View {
    if entries == [] then v
    else
      var w := ApplyAddedLike(v, entries[..|entries| - 1]);
      var e := entries[|entries| - 1];
      if e.coord in w.revisions && w.revisions[e.coord] == e.revision then w
      else View(w.loaded + {e.coord}, w.revisions[e.coord := e.revision])
  }

  function ApplySync(v: View, u: Update): View {
    ApplyAddedLike(ApplyAddedLike(ApplyRemoved(v, u.removed), u.added), u.deltas)
  }

  class ChunkSyncClient {
    const world: World
    var revisions: map<ChunkCoord, nat>

    ghost function Holding(): View
      reads this, world
    {
      View(world.chunks.Keys, revisions)
    }

    constructor (world: World)
      ensures this.world == world && revisions == map[]
    {
      this.world := world;
      revisions := map[];
    }

    /** Every loaded chunk is one the client had, left alone, or is generated at the height in force. */
    ghost predicate KeptOrGenerated(original: map<ChunkCoord, Chunk>, top: int)
      requires world.Valid()
      reads this, world, world.Cells()
    {
      forall k :: k in world.chunks ==>
        || (k in original && world.chunks[k] == original[k])
        || (world.maxHeight == top && Generated(world.Generator(), k, world.chunks[k].Contents()))
    }

    method Remove(entries: seq<Entry>)
      requires world.Valid()
      modifies this, world`chunks
      ensures world.Valid() && Holding() == ApplyRemoved(old(Holding()), entries)
      ensures forall k :: k in world.chunks ==> k in old(world.chunks) && world.chunks[k] == old(world.chunks)[k]
    {
      for i := 0 to |entries|
        invariant world.Valid() && Holding() == ApplyRemoved(old(Holding()), entries[..i])
        invariant forall k :: k in world.chunks ==> k in old(world.chunks) && world.chunks[k] == old(world.chunks)[k]
      {
        var k := entries[i].coord;
        var removed := world.RemoveChunk(k);
        revisions := revisions - {k};
        assert entries[..i + 1][..i] == entries[..i];
      }
      assert entries[..|entries|] == entries;
    }

    method AddLike(height: int, entries: seq<Entry>, ghost original: map<ChunkCoord, Chunk>, ghost start: int)
      requires world.Valid() && KeptOrGenerated(original, Raise(start, height))
      requires world.maxHeight == start || world.maxHeight == Raise(start, height)
      modifies this, world`chunks, world`maxHeight
      ensures world.Valid() && KeptOrGenerated(original, Raise(start, height))
      ensures world.maxHeight == start || world.maxHeight == Raise(start, height)
      ensures Holding() == ApplyAddedLike(old(Holding()), entries)
    {
      for i := 0 to |entries|
        invariant world.Valid() && KeptOrGenerated(original, Raise(start, height))
        invariant world.maxHeight == start || world.maxHeight == Raise(start, height)
        invariant Holding() == ApplyAddedLike(old(Holding()), entries[..i])
      {
        AddOne(height, entries[i], original, start);
        assert entries[..i + 1][..i] == entries[..i];
      }
      assert entries[..|entries|] == entries;
    }

    method AddOne(height: int, e: Entry, ghost original: map<ChunkCoord, Chunk>, ghost start: int)
      requires world.Valid() && KeptOrGenerated(original, Raise(start, height))
      requires world.maxHeight == start || world.maxHeight == Raise(start, height)
      modifies this, world`chunks, world`maxHeight
      ensures world.Valid() && KeptOrGenerated(original, Raise(start, height))
      ensures world.maxHeight == start || world.maxHeight == Raise(start, height)
      ensures Holding() == if e.coord in old(revisions) && old(revisions)[e.coord] == e.revision then old(Holding())
                           else View(old(world.chunks).Keys + {e.coord}, old(revisions)[e.coord := e.revision])
    {
      hide Generated;
      if e.coord in revisions && revisions[e.coord] == e.revision {
        return;
      }
      var chunk := world.EnsureGeneratedChunk(e.coord, height);
      revisions := revisions[e.coord := e.revision];
    }

    /** Applies one update; a chunk is never edited, only dropped, kept or generated anew. */
    method Apply(height: int, u: Update)
      requires world.Valid()
      modifies this, world`chunks, world`maxHeight
      ensures world.Valid() && Holding() == ApplySync(old(Holding()), u)
      ensures KeptOrGenerated(old(world.chunks), Raise(old(world.maxHeight), height))
    {
      Remove(u.removed);
      AddLike(height, u.added, old(world.chunks), old(world.maxHeight));
      AddLike(height, u.deltas, old(world.chunks), old(world.maxHeight));
    }
  }

  function Raise(top: int, height: int): int { if height > 0 then Max(top, height) else top }

  // ---------------------------------------------------------------------------------------------
  // Incremental sync equals full sync
  // ---------------------------------------------------------------------------------------------

  /** The whole disc at the server's revisions: what a client starting from nothing would be sent. */
  function FullView(target: set<ChunkCoord>, revisions: map<ChunkCoord, nat>): View {
    View(target, map k | k in target :: Revision(revisions, k))
  }

  lemma {:induction false} RemovedEffect(v: View, entries: seq<Entry>)
    ensures var coords := set e | e in entries :: e.coord;
            ApplyRemoved(v, entries) == View(v.loaded - coords, v.revisions - coords)
  {
    if entries != [] {
      var rest := entries[..|entries| - 1];
      RemovedEffect(v, rest);
      assert entries == rest + [entries[|entries| - 1]];
      var coords, less := set e | e in entries :: e.coord, set e | e in rest :: e.coord;
      assert coords == less + {entries[|entries| - 1].coord};
    }
  }

  /** When nothing is known without being loaded, every listed chunk ends up loaded at its revision. */
  lemma {:induction false} AddedEffect(v: View, entries: seq<Entry>, m: map<ChunkCoord, nat>)
    requires Lists(entries, m) && v.revisions.Keys <= v.loaded
    ensures ApplyAddedLike(v, entries) == View(v.loaded + m.Keys, v.revisions + m)
  {
    if entries == [] {
      forall k ensures k !in m { assert Entry(k, Get(m, k, 0)) !in entries; }
      assert m == map[];
      assert v.loaded + m.Keys == v.loaded && v.revisions + m == v.revisions;
    } else {
      var last := entries[|entries| - 1];
      var rest := entries[..|entries| - 1];
      assert last in entries;
      AddedEffect(v, rest, m - {last.coord});
      var w := ApplyAddedLike(v, rest);
      assert m == (m - {last.coord})[last.coord := last.revision];
      assert v.loaded + m.Keys == w.loaded + {last.coord};
      assert v.revisions + m == w.revisions[last.coord := last.revision];
      if last.coord in w.revisions && w.revisions[last.coord] == last.revision {
        assert last.coord in v.loaded;
        assert w.revisions[last.coord := last.revision] == w.revisions;
      }
    }
  }

  /** Server and client agree, and the client knows no revision the server has not reached. */
  ghost predicate InStep(p: PlayerState, revisions: map<ChunkCoord, nat>, v: View) {
    && v == View(p.subscribed, p.known)
    && p.known.Keys == p.subscribed
    && forall k :: k in p.known ==> p.known[k] <= Revision(revisions, k)
  }

  /** One update brings a client that is in step exactly to the full view. */
  lemma UpdateReachesFullView(p: PlayerState, revisions: map<ChunkCoord, nat>, v: View, target: set<ChunkCoord>, u: Update)
    requires InStep(p, revisions, v) && IsUpdate(p, target, revisions, u)
    ensures ApplySync(v, u) == FullView(target, revisions)
    ensures InStep(Subscribe(p, target, revisions), revisions, ApplySync(v, u))
  {
    var gone, added, newer := p.subscribed - target, AddedMap(p, target, revisions), DeltaMap(p, target, revisions);
    RemovedEffect(v, u.removed);
    RemovedCoords(u.removed, p, target);
    var v1 := ApplyRemoved(v, u.removed);
    assert v1 == View(p.subscribed - gone, p.known - gone);
    AddedEffect(v1, u.added, added);
    AddedEffect(ApplyAddedLike(v1, u.added), u.deltas, newer);
    assert ApplySync(v, u).revisions == p.known - gone + added + newer;
    SubscribeKnowsAll(p, target, revisions);
    assert (p.subscribed - gone) + added.Keys + newer.Keys == target;
  }

  lemma RemovedCoords(entries: seq<Entry>, p: PlayerState, target: set<ChunkCoord>)
    requires Lists(entries, RemovedMap(p, target))
    ensures (set e | e in entries :: e.coord) == p.subscribed - target
  {
    var m := RemovedMap(p, target);
    assert m.Keys == p.subscribed - target;
    forall k ensures k in m <==> k in set e | e in entries :: e.coord {
      if k in m { assert Entry(k, 0) in entries; }
    }
  }

  lemma SubscribeKnowsAll(p: PlayerState, target: set<ChunkCoord>, revisions: map<ChunkCoord, nat>)
    requires p.known.Keys == p.subscribed
    requires forall k :: k in p.known ==> p.known[k] <= Revision(revisions, k)
    ensures (p.known - (p.subscribed - target)) + AddedMap(p, target, revisions) + DeltaMap(p, target, revisions)
            == map k | k in target :: Revision(revisions, k)
  {
  }

  /** A server edit, or a server update built for the client's current surroundings and applied there. */
  datatype Event = Edit(coord: ChunkCoord) | Sync(target: set<ChunkCoord>, update: Update)

  datatype Link = Link(player: PlayerState, revisions: map<ChunkCoord, nat>, client: View)

  const CONNECTED := Link(NEW_PLAYER, map[], View({}, map[]))

  function Step(l: Link, e: Event): Link {
    match e
    case Edit(k) => l.(revisions := l.revisions[k := Revision(l.revisions, k) + 1])
    case Sync(target, u) => l.(player := Subscribe(l.player, target, l.revisions), client := ApplySync(l.client, u))
  }

  function Run(l: Link, events: seq<Event>): Link {
    if events == [] then l else Step(Run(l, events[..|events| - 1]), events[|events| - 1])
  }

  /** Every update of the run is the one the server builds at that point. */
  ghost predicate IsRun(l: Link, events: seq<Event>) {
    forall i :: 0 <= i < |events| && events[i].Sync? ==>
      var before := Run(l, events[..i]);
      IsUpdate(before.player, events[i].target, before.revisions, events[i].update)
  }

  lemma {:induction false} RunsStayInStep(events: seq<Event>)
    requires IsRun(CONNECTED, events)
    ensures var l := Run(CONNECTED, events); InStep(l.player, l.revisions, l.client)
  {
    if events != [] {
      var rest := events[..|events| - 1];
      PrefixIsRun(CONNECTED, events, |events| - 1);
      RunsStayInStep(rest);
      var l := Run(CONNECTED, rest);
      match events[|events| - 1]
      case Edit(k) =>
      case Sync(target, u) => UpdateReachesFullView(l.player, l.revisions, l.client, target, u);
    }
  }

  lemma PrefixIsRun(l: Link, events: seq<Event>, n: nat)
    requires IsRun(l, events) && n <= |events|
    ensures IsRun(l, events[..n])
  {
    forall i | 0 <= i < n && events[..n][i].Sync?
      ensures var before := Run(l, events[..n][..i]);
              IsUpdate(before.player, events[..n][i].target, before.revisions, events[..n][i].update)
    {
      assert events[..n][..i] == events[..i];
    }
  }

  /**
   * Incremental sync equals full sync: in any run of edits, moves and updates, right after an update
   * the client holds exactly the relevant chunks, each at the server's current revision.
   */
  lemma IncrementalEqualsFull(events: seq<Event>)
    requires IsRun(CONNECTED, events) && events != [] && events[|events| - 1].Sync?
    ensures var l := Run(CONNECTED, events);
            l.client == FullView(events[|events| - 1].target, l.revisions)
  {
    hide InStep, IsUpdate, Subscribe, ApplySync, FullView;
    var rest := events[..|events| - 1];
    PrefixIsRun(CONNECTED, events, |events| - 1);
    RunsStayInStep(rest);
    var l := Run(CONNECTED, rest);
    UpdateReachesFullView(l.player, l.revisions, l.client, events[|events| - 1].target, events[|events| - 1].update);
  }

  /** An edit in a chunk the player is to see is in the player's next update, at the newest revision. */
  lemma {:induction false} EditIsInNextUpdate(events: seq<Event>, i: nat)
    requires IsRun(CONNECTED, events) && events != []
    requires events[|events| - 1].Sync? && i < |events| - 1 && events[i].Edit?
    requires forall j :: i < j < |events| - 1 ==> events[j].Edit?
    requires events[i].coord in events[|events| - 1].target
    ensures var u, k := events[|events| - 1].update, events[i].coord;
            var e := Entry(k, Revision(Run(CONNECTED, events).revisions, k));
            e in u.added || e in u.deltas
  {
    var n := |events| - 1;
    PrefixIsRun(CONNECTED, events, i);
    RunsStayInStep(events[..i]);
    EditsOnlyRaise(events, i, n);
    var before := Run(CONNECTED, events[..n]);
    var k := events[i].coord;
    assert IsUpdate(before.player, events[n].target, before.revisions, events[n].update);
    var e := Entry(k, Revision(before.revisions, k));
    if k in before.player.subscribed {
      assert e.coord in DeltaMap(before.player, events[n].target, before.revisions);
    } else {
      assert e.coord in AddedMap(before.player, events[n].target, before.revisions);
    }
  }

  lemma {:induction false} EditsOnlyRaise(events: seq<Event>, i: nat, n: nat)
    requires i < n <= |events| && forall j :: i <= j < n ==> events[j].Edit?
    ensures var a, b := Run(CONNECTED, events[..i]), Run(CONNECTED, events[..n]);
            && b.player == a.player
            && (forall k :: Revision(a.revisions, k) <= Revision(b.revisions, k))
            && Revision(a.revisions, events[i].coord) < Revision(b.revisions, events[i].coord)
  {
    assert events[..n][..n - 1] == events[..n - 1];
    if n > i + 1 {
      EditsOnlyRaise(events, i, n - 1);
    }
  }
}
