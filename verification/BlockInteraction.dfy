/** server/src/BlockInteraction.cpp: authoritative place and break of single blocks. */
module BlockEdits {
  import opened Prelude
  import opened WorldProfile
  import opened PoiGrid
  import opened ChunkStore
  import opened PoiStamps
  import opened VoxelWorld

  const AIR: BlockId := 0

  datatype BlockStatus =
    | Applied | OutOfBounds | InvalidBlockId | ConflictAlreadyEmpty | ConflictAlreadyOccupied | NoChange

  datatype BlockCommand = BlockCommand(x: int, y: int, z: int, id: BlockId)

  datatype BlockOutcome = BlockOutcome(status: BlockStatus, previous: BlockId, chunk: ChunkCoord)

  /** What a command deserves, from the block it meets. */
  function Verdict(valid: set<BlockId>, command: BlockCommand, current: Option<BlockId>): BlockStatus {
    if command.id !in valid then InvalidBlockId
    else match current
      case None => OutOfBounds
      case Some(previous) =>
        if (command.id == AIR) != (previous == AIR) then Applied
        else if command.id == AIR then ConflictAlreadyEmpty
        else if command.id == previous then NoChange
        else ConflictAlreadyOccupied
  }

  /** Each verdict, by whether the ids are air: only air can be filled, and only something can be dug away. */
  lemma VerdictIsExact(valid: set<BlockId>, command: BlockCommand, current: Option<BlockId>)
    ensures var v, known, loaded := Verdict(valid, command, current), command.id in valid, current.Some?;
            && (v == InvalidBlockId <==> !known)
            && (v == OutOfBounds <==> known && !loaded)
            && (v == Applied <==> known && loaded && (if command.id == 0 then current.value != 0 else current.value == 0))
            && (v == ConflictAlreadyEmpty <==> known && loaded && command.id == current.value == 0)
            && (v == NoChange <==> known && loaded && command.id == current.value != 0)
            && (v == ConflictAlreadyOccupied <==> known && loaded && command.id != 0 && current.value != 0 && command.id != current.value)
  {
  }

  /** What stands at a position once the command has met a world that looks like `picture`. */
  function After(valid: set<BlockId>, command: BlockCommand, picture: map<ChunkCoord, Blocks>, x: int, y: int, z: int): Option<BlockId> {
    if (x, y, z) == (command.x, command.y, command.z) && Verdict(valid, command, BlockIn(picture, x, y, z)) == Applied
    then Some(command.id) else BlockIn(picture, x, y, z)
  }

  class BlockInteraction {
    const validIds: set<BlockId>

    constructor (ids: set<BlockId>)
      ensures validIds == if ids == {} then {0, 1, 2, 3} else ids + {AIR}
    {
      validIds := if ids == {} then {0, 1, 2, 3} else ids + {AIR};
    }

    /**
     * An edit is applied exactly when it turns air into a solid or a solid into air in a loaded chunk;
     * it then changes that block only and reports the chunk that holds it.
     */
    method Apply(command: BlockCommand, world: World) returns (outcome: BlockOutcome)
      requires world.Valid()
      modifies world.Cells()
      ensures world.Valid()
      ensures outcome.status == Verdict(validIds, command, old(BlockIn(world.Picture(), command.x, command.y, command.z)))
      ensures forall a, b, c :: BlockIn(world.Picture(), a, b, c) == After(validIds, command, old(world.Picture()), a, b, c)
      ensures var met := old(BlockIn(world.Picture(), command.x, command.y, command.z));
              outcome.previous == if command.id in validIds && met.Some? then met.value else AIR
      ensures outcome.chunk == if outcome.status == Applied then ChunkAt(command.x, command.y, command.z) else ChunkCoord(0, 0, 0)
      ensures outcome.status == Applied ==> outcome.chunk in world.chunks
    {
      hide BlockIn, ChunkAt, TruncDiv;
      outcome := BlockOutcome(OutOfBounds, 0, ChunkCoord(0, 0, 0));
      if command.id !in validIds {
        return outcome.(status := InvalidBlockId);
      }
      var current := world.BlockAt(command.x, command.y, command.z);
      if current.None? {
        return;
      }
      Located(world.Picture(), command.x, command.y, command.z);
      outcome := outcome.(previous := current.value);
      if command.id == AIR && outcome.previous == AIR {
        return outcome.(status := ConflictAlreadyEmpty);
      }
      if command.id != AIR && outcome.previous != AIR {
        if outcome.previous == command.id {
          return outcome.(status := NoChange);
        }
        return outcome.(status := ConflictAlreadyOccupied);
      }
      var written := world.SetBlock(command.x, command.y, command.z, command.id);
      if !written || command.x < 0 || command.y < 0 || command.z < 0 {
        return;
      }
      outcome := outcome.(chunk := ChunkCoord(TruncDiv(command.x, CHUNK_SIZE), TruncDiv(command.y, CHUNK_SIZE),
                                              TruncDiv(command.z, CHUNK_SIZE)));
      return outcome.(status := Applied);
    }
  }

  /** A position that holds a block is not negative and lies in the loaded chunk that truncating division names. */
  lemma Located(picture: map<ChunkCoord, Blocks>, x: int, y: int, z: int)
    requires BlockIn(picture, x, y, z).Some?
    ensures x >= 0 && y >= 0 && z >= 0 && ChunkAt(x, y, z) in picture
    ensures ChunkAt(x, y, z) == ChunkCoord(TruncDiv(x, CHUNK_SIZE), TruncDiv(y, CHUNK_SIZE), TruncDiv(z, CHUNK_SIZE))
  {
  }

  /** The picture is the one the command leaves. */
  ghost predicate Leaves(valid: set<BlockId>, command: BlockCommand, before: map<ChunkCoord, Blocks>, after: map<ChunkCoord, Blocks>) {
    forall x, y, z :: BlockIn(after, x, y, z) == After(valid, command, before, x, y, z)
  }

  /**
   * Breaking what was placed, or putting back what was broken, restores every block of the world exactly when the old
   * block is one that commands may name; repeating the command instead changes nothing.
   */
  lemma EditsUndo(valid: set<BlockId>, command: BlockCommand, previous: BlockId, before: map<ChunkCoord, Blocks>,
                  after: map<ChunkCoord, Blocks>, undone: map<ChunkCoord, Blocks>, again: map<ChunkCoord, Blocks>)
    requires BlockIn(before, command.x, command.y, command.z) == Some(previous)
    requires Verdict(valid, command, Some(previous)) == Applied
    requires Leaves(valid, command, before, after)
    requires Leaves(valid, command.(id := previous), after, undone) && Leaves(valid, command, after, again)
    ensures (forall x, y, z :: BlockIn(undone, x, y, z) == BlockIn(before, x, y, z)) <==> previous in valid
    ensures forall x, y, z :: BlockIn(again, x, y, z) == BlockIn(after, x, y, z)
  {
    assert BlockIn(after, command.x, command.y, command.z) == Some(command.id);
    assert BlockIn(undone, command.x, command.y, command.z) == if previous in valid then Some(previous) else Some(command.id);
  }
}
