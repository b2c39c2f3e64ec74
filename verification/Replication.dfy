/**
 * server/src/WorldReplication.cpp and client/src/ChunkSyncApplier.cpp: per-player chunk deltas on
 * the server, applied on the client.
 */
module Replication {
  import opened Prelude
  import opened Sorting
  import opened WorldProfile
  import opened ChunkStore
  import opened PoiStamps
  import opened VoxelWorld

  datatype Config = Config(chunksX: int, chunksY: int, chunksZ: int, interestRadius: int)

  datatype Entry = Entry(coord: ChunkCoord, revision: nat)

  datatype Update = Update(added: seq<Entry>, removed: seq<Entry>, deltas: seq<Entry>)

  datatype PlayerState = PlayerState(subscribed: set<ChunkCoord>, known: map<ChunkCoord, nat>)

  const NEW_PLAYER := PlayerState({}, map[])

  function SanitizeConfig(c: Config): Config {
    Config(if c.chunksX <= 0 then 64 else c.chunksX, if c.chunksY <= 0 then 8 else c.chunksY,
           if c.chunksZ <= 0 then 64 else c.chunksZ, if c.interestRadius < 0 then 2 else c.interestRadius)
  }

  predicate SaneConfig(c: Config) { c.chunksX > 0 && c.chunksY > 0 && c.chunksZ > 0 && c.interestRadius >= 0 }

  // ---------------------------------------------------------------------------------------------
  // Interest
  // ---------------------------------------------------------------------------------------------

  function CenterChunk(axis: real, chunks: int): int { Clamp((axis / 32.0).Floor, 0, Max(0, chunks - 1)) }

  predicate InMap(c: Config, k: ChunkCoord) {
    0 <= k.x < c.chunksX && 0 <= k.y < c.chunksY && 0 <= k.z < c.chunksZ
  }

  predicate InDisc(c: Config, centerX: int, centerZ: int, k: ChunkCoord) {
    var dx, dz := k.x - centerX, k.z - centerZ;
    -c.interestRadius <= dx <= c.interestRadius && -c.interestRadius <= dz <= c.interestRadius
    && dx * dx + dz * dz <= c.interestRadius * c.interestRadius
  }

  /** The loaded chunks a player at (x, z) is to see: the interest disc, clipped to the map. */
  function Relevant(c: Config, x: real, z: real, loaded: set<ChunkCoord>): set<ChunkCoord> {
    set k | k in loaded && InMap(c, k) && InDisc(c, CenterChunk(x, c.chunksX), CenterChunk(z, c.chunksZ), k)
  }

  predicate CoordLess(a: ChunkCoord, b: ChunkCoord) {
    if a.x != b.x then a.x < b.x else if a.z != b.z then a.z < b.z else a.y < b.y
  }

  predicate EntryLess(a: Entry, b: Entry) { CoordLess(a.coord, b.coord) }

  function Revision(revisions: map<ChunkCoord, nat>, k: ChunkCoord): nat { Get(revisions, k, 0) }

  // ---------------------------------------------------------------------------------------------
  // What an update must contain
  // ---------------------------------------------------------------------------------------------

  /** The entries of a map, each once, in coordinate order. */
  ghost predicate Lists(s: seq<Entry>, m: map<ChunkCoord, nat>) {
    && (forall e :: e in s <==> e.coord in m && m[e.coord] == e.revision)
    && (forall i, j :: 0 <= i < j < |s| ==> EntryLess(s[i], s[j]))
  }

  function AddedMap(p: PlayerState, target: set<ChunkCoord>, revisions: map<ChunkCoord, nat>): map<ChunkCoord, nat> {
    map k | k in target - p.subscribed :: Revision(revisions, k)
  }

  function RemovedMap(p: PlayerState, target: set<ChunkCoord>): map<ChunkCoord, nat> {
    map k | k in p.subscribed - target :: 0
  }

  function DeltaMap(p: PlayerState, target: set<ChunkCoord>, revisions: map<ChunkCoord, nat>): map<ChunkCoord, nat> {
    map k | k in target && k in p.subscribed && Revision(revisions, k) > Get(p.known, k, 0) :: Revision(revisions, k)
  }

  ghost predicate IsUpdate(p: PlayerState, target: set<ChunkCoord>, revisions: map<ChunkCoord, nat>, u: Update) {
    && Lists(u.added, AddedMap(p, target, revisions))
    && Lists(u.removed, RemovedMap(p, target))
    && Lists(u.deltas, DeltaMap(p, target, revisions))
  }

  function Subscribe(p: PlayerState, target: set<ChunkCoord>, revisions: map<ChunkCoord, nat>): PlayerState {
    PlayerState(target, (p.known - (p.subscribed - target)) + AddedMap(p, target, revisions) + DeltaMap(p, target, revisions))
  }

  // ---------------------------------------------------------------------------------------------
  // Server
  // ---------------------------------------------------------------------------------------------

  class WorldReplication {
    const config: Config
    var playerStates: map<nat, PlayerState>
    var chunkRevisions: map<ChunkCoord, nat>

    constructor (config: Config)
      ensures SaneConfig(this.config) && (SaneConfig(config) ==> this.config == config)
      ensures playerStates == map[] && chunkRevisions == map[]
    {
      this.config := SanitizeConfig(config);
      playerStates, chunkRevisions := map[], map[];
    }

    method Reset()
      modifies this
      ensures playerStates == map[] && chunkRevisions == map[]
    {
      playerStates, chunkRevisions := map[], map[];
    }

    method RemovePlayer(player: nat)
      modifies this`playerStates
      ensures playerStates == old(playerStates) - {player}
    {
      playerStates := playerStates - {player};
    }

    method MarkChunkDirty(k: ChunkCoord)
      modifies this`chunkRevisions
      ensures chunkRevisions == old(chunkRevisions)[k := Revision(old(chunkRevisions), k) + 1]
    {
      if k !in chunkRevisions {
        chunkRevisions := chunkRevisions[k := 1];
        return;
      }
      chunkRevisions := chunkRevisions[k := chunkRevisions[k] + 1];
    }

    method GatherRelevantChunks(x: real, z: real, world: World) returns (coords: seq<ChunkCoord>)
      requires SaneConfig(config)
      ensures forall k :: k in coords <==> k in Relevant(config, x, z, world.chunks.Keys)
      ensures forall i, j :: 0 <= i < j < |coords| ==> CoordLess(coords[i], coords[j])
    {
      var centerX, centerZ := CenterChunk(x, config.chunksX), CenterChunk(z, config.chunksZ);
      var radius := config.interestRadius;
      var found: seq<ChunkCoord> := [];
      for dz := -radius to radius + 1
        invariant GatheredUpTo(found, x, z, world.chunks.Keys, dz, -radius, 0)
      {
        for dx := -radius to radius + 1
          invariant GatheredUpTo(found, x, z, world.chunks.Keys, dz, dx, 0)
        {
          var cx, cz := centerX + dx, centerZ + dz;
          if dx * dx + dz * dz <= radius * radius && 0 <= cx < config.chunksX && 0 <= cz < config.chunksZ {
            for cy := 0 to config.chunksY
              invariant GatheredUpTo(found, x, z, world.chunks.Keys, dz, dx, cy)
            {
              if ChunkCoord(cx, cy, cz) in world.chunks {
                assert ChunkCoord(cx, cy, cz) !in found;
                found := found + [ChunkCoord(cx, cy, cz)];
              }
            }
          }
        }
      }
      coords := StdSort(CoordLess, found);
      MultisetMembers(found, coords);
      DistinctIsStrict(found, coords);
    }

    lemma DistinctIsStrict(found: seq<ChunkCoord>, coords: seq<ChunkCoord>)
      requires multiset(coords) == multiset(found) && SortedBy(CoordLess, coords)
      requires forall i, j :: 0 <= i < j < |found| ==> found[i] != found[j]
      ensures forall i, j :: 0 <= i < j < |coords| ==> CoordLess(coords[i], coords[j])
    {
      forall i, j | 0 <= i < j < |coords| ensures CoordLess(coords[i], coords[j]) {
        SortKeepsDistinct(found, coords, i, j);
      }
    }

    /** Rows of the disc before dz, columns of row dz before dx, and the levels below cy of column dx. */
    ghost predicate GatheredUpTo(found: seq<ChunkCoord>, x: real, z: real, loaded: set<ChunkCoord>, dz: int, dx: int, cy: int) {
      var centerX, centerZ := CenterChunk(x, config.chunksX), CenterChunk(z, config.chunksZ);
      && (forall k :: k in found <==>
            && k in Relevant(config, x, z, loaded)
            && (k.z - centerZ < dz || (k.z - centerZ == dz && (k.x - centerX < dx || (k.x - centerX == dx && k.y < cy)))))
      && (forall i, j :: 0 <= i < j < |found| ==> found[i] != found[j])
    }

    /** Unsubscribes what is no longer relevant, visiting the subscriptions in any order. */
    static method DropStale(before: PlayerState, targetSet: set<ChunkCoord>)
      returns (state: PlayerState, removed: seq<Entry>)
      ensures state == PlayerState(before.subscribed * targetSet, before.known - (before.subscribed - targetSet))
      ensures Holds(removed, RemovedMap(before, targetSet))
    {
      state, removed := before, [];
      ghost var gone: map<ChunkCoord, nat> := map[];
      var todo := before.subscribed;
      while todo != {}
        invariant todo <= before.subscribed
        invariant gone == map k | k in (before.subscribed - todo) - targetSet :: 0
        invariant Holds(removed, gone)
        invariant state == PlayerState(before.subscribed - gone.Keys, before.known - gone.Keys)
        decreases todo
      {
        var k :| k in todo;
        todo := todo - {k};
        if k !in targetSet {
          removed := removed + [Entry(k, 0)];
          gone := gone[k := 0];
          state := PlayerState(state.subscribed - {k}, state.known - {k});
        }
      }
      assert gone == RemovedMap(before, targetSet);
      assert before.subscribed - gone.Keys == before.subscribed * targetSet;
      assert gone.Keys == before.subscribed - targetSet;
    }

    /** Subscribes or refreshes one chunk. */
    static method AddOrRefresh(state: PlayerState, added: seq<Entry>, deltas: seq<Entry>, k: ChunkCoord, revision: nat)
      returns (state': PlayerState, added': seq<Entry>, deltas': seq<Entry>)
      ensures state'.subscribed == state.subscribed + {k}
      ensures state'.known == if k !in state.subscribed || revision > Get(state.known, k, 0) then state.known[k := revision] else state.known
      ensures added' == if k !in state.subscribed then added + [Entry(k, revision)] else added
      ensures deltas' == if k in state.subscribed && revision > Get(state.known, k, 0) then deltas + [Entry(k, revision)] else deltas
    {
      state', added', deltas' := state, added, deltas;
      if k !in state.subscribed {
        state' := PlayerState(state.subscribed + {k}, state.known[k := revision]);
        added' := added + [Entry(k, revision)];
      } else if revision > Get(state.known, k, 0) {
        state' := state.(known := state.known[k := revision]);
        deltas' := deltas + [Entry(k, revision)];
      }
    }

    /** Subscribes or refreshes one chunk after another. */
    static method AddFresh(before: PlayerState, start: PlayerState, targetChunks: seq<ChunkCoord>, revisions: map<ChunkCoord, nat>)
      returns (state: PlayerState, added: seq<Entry>, deltas: seq<Entry>)
      requires forall i, j :: 0 <= i < j < |targetChunks| ==> targetChunks[i] != targetChunks[j]
      requires var target := set k | k in targetChunks;
               start == PlayerState(before.subscribed * target, before.known - (before.subscribed - target))
      ensures var target := set k | k in targetChunks;
              && state == Subscribe(before, target, revisions)
              && Holds(added, AddedMap(before, target, revisions)) && Holds(deltas, DeltaMap(before, target, revisions))
    {
      state, added, deltas := start, [], [];
      ghost var target := set k | k in targetChunks;
      ghost var seen: set<ChunkCoord> := {};
      for i := 0 to |targetChunks|
        invariant seen == set k | k in targetChunks[..i]
        invariant Refreshed(before, target, seen, revisions, state, added, deltas)
      {
        var k := targetChunks[i];
        assert targetChunks[..i + 1] == targetChunks[..i] + [k];
        assert k !in seen && k in target;
        RefreshOne(before, target, seen, revisions, state, added, deltas, k);
        state, added, deltas := AddOrRefresh(state, added, deltas, k, Revision(revisions, k));
        seen := seen + {k};
      }
      assert targetChunks[..|targetChunks|] == targetChunks;
      assert before.subscribed * target + target == target;
    }

    method BuildPlayerUpdate(player: nat, x: real, z: real, world: World) returns (u: Update)
      requires SaneConfig(config)
      modifies this`playerStates
      ensures var p := Get(old(playerStates), player, NEW_PLAYER);
              var target := Relevant(config, x, z, world.chunks.Keys);
              && IsUpdate(p, target, chunkRevisions, u)
              && playerStates == old(playerStates)[player := Subscribe(p, target, chunkRevisions)]
    {
      var before := Get(playerStates, player, NEW_PLAYER);
      var targetChunks := GatherRelevantChunks(x, z, world);
      var targetSet := set k | k in targetChunks;
      assert targetSet == Relevant(config, x, z, world.chunks.Keys);
      forall i, j | 0 <= i < j < |targetChunks| ensures targetChunks[i] != targetChunks[j] {
        assert CoordLess(targetChunks[i], targetChunks[j]);
      }
      var kept, removed := DropStale(before, targetSet);
      var state, added, deltas := AddFresh(before, kept, targetChunks, chunkRevisions);
      playerStates := playerStates[player := state];
      var a := StdSort(EntryLess, added);
      var r := StdSort(EntryLess, removed);
      var d := StdSort(EntryLess, deltas);
      SortedHolderLists(added, a, AddedMap(before, targetSet, chunkRevisions));
      SortedHolderLists(removed, r, RemovedMap(before, targetSet));
      SortedHolderLists(deltas, d, DeltaMap(before, targetSet, chunkRevisions));
      u := Update(a, r, d);
    }
  }

  /** The entries of a map, each once, in any order. */
  ghost predicate Holds(s: seq<Entry>, m: map<ChunkCoord, nat>) {
    && (forall e :: e in s <==> e.coord in m && m[e.coord] == e.revision)
    && (forall i, j :: 0 <= i < j < |s| ==> s[i] != s[j])
  }

  lemma HoldsOneMore(s: seq<Entry>, m: map<ChunkCoord, nat>, k: ChunkCoord, revision: nat)
    requires Holds(s, m) && k !in m
    ensures Holds(s + [Entry(k, revision)], m[k := revision])
  {
  }

  /** The relevant chunks seen so far are subscribed and listed; the others are as they were. */
  ghost predicate Refreshed(before: PlayerState, target: set<ChunkCoord>, seen: set<ChunkCoord>, revisions: map<ChunkCoord, nat>,
                            state: PlayerState, added: seq<Entry>, deltas: seq<Entry>)
  {
    && Holds(added, AddedMap(before, seen, revisions)) && Holds(deltas, DeltaMap(before, seen, revisions))
    && state.subscribed == before.subscribed * target + seen
    && state.known == (before.known - (before.subscribed - target)) + AddedMap(before, seen, revisions) + DeltaMap(before, seen, revisions)
  }

  lemma RefreshOne(before: PlayerState, target: set<ChunkCoord>, seen: set<ChunkCoord>, revisions: map<ChunkCoord, nat>,
                   state: PlayerState, added: seq<Entry>, deltas: seq<Entry>, k: ChunkCoord)
    requires Refreshed(before, target, seen, revisions, state, added, deltas) && k in target && k !in seen
    ensures var revision, isNew := Revision(revisions, k), k !in state.subscribed;
            var isNewer := !isNew && revision > Get(state.known, k, 0);
            Refreshed(before, target, seen + {k}, revisions,
                      PlayerState(state.subscribed + {k}, if isNew || isNewer then state.known[k := revision] else state.known),
                      if isNew then added + [Entry(k, revision)] else added,
                      if isNewer then deltas + [Entry(k, revision)] else deltas)
  {
    hide AddedMap, DeltaMap;
    var revision := Revision(revisions, k);
    AddOne(before, seen, k, revisions);
    HoldsOneMore(added, AddedMap(before, seen, revisions), k, revision);
    HoldsOneMore(deltas, DeltaMap(before, seen, revisions), k, revision);
    assert k in state.subscribed <==> k in before.subscribed;
    assert k in before.subscribed ==> Get(state.known, k, 0) == Get(before.known, k, 0);
    assert state.subscribed + {k} == before.subscribed * target + (seen + {k});
  }

  lemma AddOne(p: PlayerState, seen: set<ChunkCoord>, k: ChunkCoord, revisions: map<ChunkCoord, nat>)
    requires k !in seen
    ensures k !in AddedMap(p, seen, revisions) && k !in DeltaMap(p, seen, revisions)
    ensures AddedMap(p, seen + {k}, revisions) ==
            if k in p.subscribed then AddedMap(p, seen, revisions)
            else AddedMap(p, seen, revisions)[k := Revision(revisions, k)]
    ensures DeltaMap(p, seen + {k}, revisions) ==
            if k in p.subscribed && Revision(revisions, k) > Get(p.known, k, 0)
            then DeltaMap(p, seen, revisions)[k := Revision(revisions, k)]
            else DeltaMap(p, seen, revisions)
  {
  }

  lemma SortedHolderLists(s: seq<Entry>, r: seq<Entry>, m: map<ChunkCoord, nat>)
    requires Holds(s, m) && multiset(r) == multiset(s) && SortedBy(EntryLess, r)
    ensures Lists(r, m)
  {
    MultisetMembers(s, r);
    forall i, j | 0 <= i < j < |r| ensures EntryLess(r[i], r[j]) {
      SortKeepsDistinct(s, r, i, j);
      assert r[i] in s && r[j] in s;
    }
  }
}
