/** All live falling blocks: identifiers, capacity, and which blocks a step keeps or lands. */
module FallingBlockSystems {
  import opened Geometry
  import opened BlockTypes
  import opened FallingBlocks

  // ----- identifiers

  /** The counter after an identifier was used: past it, with u32 wrap-around and 0 reserved. */
  function AdvancedPast(next: nat, id: nat): nat {
    var wrapped := (id + 1) % (U32_MAX + 1);
    var after := if wrapped == 0 then 1 else wrapped;
    if next > after then next else after
  }

  ghost predicate UniqueIds(blocks: seq<FallingBlock>) {
    forall i, j :: 0 <= i < j < |blocks| ==> blocks[i].entityId != blocks[j].entityId
  }

  /** The place of the live block with an identifier. */
  function IndexOf(blocks: seq<FallingBlock>, id: nat): (r: Option<nat>)
    ensures r.Some? ==> r.value < |blocks| && blocks[r.value].entityId == id
    ensures r.None? ==> forall k :: 0 <= k < |blocks| ==> blocks[k].entityId != id
  {
    if blocks == [] then None
    else if blocks[|blocks| - 1].entityId == id then Some(|blocks| - 1)
    else IndexOf(blocks[..|blocks| - 1], id)
  }

  /** Replaces the live block with the same identifier, or appends. */
  function PutBlock(blocks: seq<FallingBlock>, b: FallingBlock): seq<FallingBlock> {
    match IndexOf(blocks, b.entityId)
    case Some(k) => blocks[k := b]
    case None => blocks + [b]
  }

  /** The live blocks and the counter. */
  datatype Fleet = Fleet(blocks: seq<FallingBlock>, next: nat)

  /** Distinct identifiers, each below the counter or the largest one, and no more than the capacity. */
  ghost predicate Sound(f: Fleet) {
    && |f.blocks| <= MAX_FALLING_BLOCKS && 1 <= f.next <= U32_MAX && UniqueIds(f.blocks)
    && forall k :: 0 <= k < |f.blocks| ==> f.blocks[k].entityId < f.next || f.blocks[k].entityId == U32_MAX
  }

  function Spawned(f: Fleet, grid: Pos, blockType: BlockType): Fleet {
    if |f.blocks| >= MAX_FALLING_BLOCKS then f
    else Fleet(PutBlock(f.blocks, NewBlock(f.next, Center(grid), blockType)), AdvancedPast(f.next, f.next))
  }

  function SpawnedWithId(f: Fleet, id: nat, grid: Pos, blockType: BlockType): Fleet {
    if |f.blocks| >= MAX_FALLING_BLOCKS then f
    else Fleet(PutBlock(f.blocks, NewBlock(id, Center(grid), blockType)), AdvancedPast(f.next, id))
  }

  function Without(blocks: seq<FallingBlock>, id: nat): seq<FallingBlock> {
    if blocks == [] then [] else
      var rest, last := Without(blocks[..|blocks| - 1], id), blocks[|blocks| - 1];
      if last.entityId != id then rest + [last] else rest
  }

  // ----- one step of all blocks

  datatype LandedBlock = LandedBlock(entityId: nat, position: Pos, blockType: BlockType)

  /** The blocks that go on falling, as they were before the step. */
  function Flying(blocks: seq<FallingBlock>, dt: real, isSolid: Pos -> bool): seq<FallingBlock> {
    if blocks == [] then [] else
      var rest, last := Flying(blocks[..|blocks| - 1], dt, isSolid), blocks[|blocks| - 1];
      if LandsAt(last, dt, isSolid).None? then rest + [last] else rest
  }

  /** The blocks that stop in this step. */
  function Stopping(blocks: seq<FallingBlock>, dt: real, isSolid: Pos -> bool): seq<FallingBlock> {
    if blocks == [] then [] else
      var rest, last := Stopping(blocks[..|blocks| - 1], dt, isSolid), blocks[|blocks| - 1];
      if LandsAt(last, dt, isSolid).Some? then rest + [last] else rest
  }

  function AfterStep(blocks: seq<FallingBlock>, dt: real): (r: seq<FallingBlock>)
    ensures |r| == |blocks|
  {
    if blocks == [] then [] else AfterStep(blocks[..|blocks| - 1], dt) + [Flown(blocks[|blocks| - 1], dt)]
  }

  /** What is reported for the stopping blocks: those that stop below the world are not. */
  function Landings(blocks: seq<FallingBlock>, dt: real, isSolid: Pos -> bool): seq<LandedBlock> {
    if blocks == [] then [] else
      var rest, last := Landings(blocks[..|blocks| - 1], dt, isSolid), blocks[|blocks| - 1];
      match LandsAt(last, dt, isSolid)
      case Some(p) => if p.y >= 0 then rest + [LandedBlock(last.entityId, p, last.blockType)] else rest
      case None => rest
  }

  /** A step divides the blocks into those still falling and those that stop; none is lost or doubled. */
  lemma {:induction false} StepPartitions(blocks: seq<FallingBlock>, dt: real, isSolid: Pos -> bool)
    ensures multiset(blocks) == multiset(Flying(blocks, dt, isSolid)) + multiset(Stopping(blocks, dt, isSolid))
  {
    if blocks != [] {
      var rest, last := blocks[..|blocks| - 1], blocks[|blocks| - 1];
      StepPartitions(rest, dt, isSolid);
      assert blocks == rest + [last];
      assert multiset(blocks) == multiset(rest) + multiset{last};
    }
  }

  predicate IsLandingOf(l: LandedBlock, b: FallingBlock, dt: real, isSolid: Pos -> bool) {
    && LandsAt(b, dt, isSolid) == Some(l.position) && l.position.y >= 0
    && l.entityId == b.entityId && l.blockType == b.blockType
  }

  /** A landing is reported exactly for each block that stops inside the world. */
  lemma {:induction false} LandingsAreStops(blocks: seq<FallingBlock>, dt: real, isSolid: Pos -> bool)
    ensures forall l :: l in Landings(blocks, dt, isSolid) <==> exists b :: b in blocks && IsLandingOf(l, b, dt, isSolid)
  {
    if blocks != [] {
      var rest, last := blocks[..|blocks| - 1], blocks[|blocks| - 1];
      LandingsAreStops(rest, dt, isSolid);
      assert forall b :: b in blocks <==> b in rest || b == last;
      forall l: LandedBlock
        ensures l in Landings(blocks, dt, isSolid) <==> l in Landings(rest, dt, isSolid) || IsLandingOf(l, last, dt, isSolid)
      {}
    }
  }

  // ----- identifiers stay unique

  lemma {:induction false} WithoutMembers(blocks: seq<FallingBlock>, id: nat)
    requires UniqueIds(blocks)
    ensures UniqueIds(Without(blocks, id)) && |Without(blocks, id)| <= |blocks|
    ensures forall b :: b in Without(blocks, id) <==> b in blocks && b.entityId != id
  {
    if blocks != [] {
      var rest, last := blocks[..|blocks| - 1], blocks[|blocks| - 1];
      WithoutMembers(rest, id);
      assert blocks == rest + [last];
      assert forall k :: 0 <= k < |Without(rest, id)| ==> Without(rest, id)[k] in rest;
    }
  }

  lemma {:induction false} FlyingMembers(blocks: seq<FallingBlock>, dt: real, isSolid: Pos -> bool)
    requires UniqueIds(blocks)
    ensures UniqueIds(Flying(blocks, dt, isSolid)) && |Flying(blocks, dt, isSolid)| <= |blocks|
    ensures forall b :: b in Flying(blocks, dt, isSolid) ==> b in blocks
  {
    if blocks != [] {
      var rest, last := blocks[..|blocks| - 1], blocks[|blocks| - 1];
      FlyingMembers(rest, dt, isSolid);
      assert blocks == rest + [last];
      assert forall k :: 0 <= k < |Flying(rest, dt, isSolid)| ==> Flying(rest, dt, isSolid)[k] in rest;
    }
  }

  lemma {:induction false} AfterStepIds(blocks: seq<FallingBlock>, dt: real)
    ensures forall k :: 0 <= k < |blocks| ==>
              AfterStep(blocks, dt)[k] == Flown(blocks[k], dt) && AfterStep(blocks, dt)[k].entityId == blocks[k].entityId
  {
    if blocks != [] {
      AfterStepIds(blocks[..|blocks| - 1], dt);
    }
  }

  lemma SpawnKeepsSound(f: Fleet, grid: Pos, blockType: BlockType)
    requires Sound(f)
    ensures Sound(Spawned(f, grid, blockType))
  {}

  lemma SpawnWithIdKeepsSound(f: Fleet, id: nat, grid: Pos, blockType: BlockType)
    requires Sound(f) && id <= U32_MAX
    ensures Sound(SpawnedWithId(f, id, grid, blockType))
  {}

  lemma RemoveKeepsSound(f: Fleet, id: nat)
    requires Sound(f)
    ensures Sound(f.(blocks := Without(f.blocks, id)))
  {
    WithoutMembers(f.blocks, id);
    forall k | 0 <= k < |Without(f.blocks, id)|
      ensures Without(f.blocks, id)[k] in f.blocks
    {
      assert Without(f.blocks, id)[k] in Without(f.blocks, id);
    }
  }

  lemma StepKeepsSound(f: Fleet, dt: real, isSolid: Pos -> bool)
    requires Sound(f)
    ensures Sound(f.(blocks := AfterStep(Flying(f.blocks, dt, isSolid), dt)))
  {
    var flying := Flying(f.blocks, dt, isSolid);
    FlyingMembers(f.blocks, dt, isSolid);
    AfterStepIds(flying, dt);
    forall k | 0 <= k < |flying|
      ensures flying[k] in f.blocks
    {
      assert flying[k] in flying;
    }
  }

  /** Below the capacity, a spawn adds its block and keeps all others exactly when its identifier is not live. */
  lemma SpawnAddsIff(f: Fleet, grid: Pos, blockType: BlockType)
    requires Sound(f) && |f.blocks| < MAX_FALLING_BLOCKS
    ensures Spawned(f, grid, blockType).blocks == f.blocks + [NewBlock(f.next, Center(grid), blockType)]
            <==> f.next < U32_MAX || IndexOf(f.blocks, U32_MAX).None?
  {}

  /** While the counter can advance, every spawn has an identifier that no spawn had before or has again. */
  lemma CounterAdvances(next: nat, id: nat)
    requires 1 <= next <= U32_MAX && id <= U32_MAX
    ensures next <= AdvancedPast(next, id) <= U32_MAX
    ensures id < AdvancedPast(next, id) <==> id < U32_MAX
  {}

  /** The counter sticks at its largest value: a second spawn there replaces the first one's block. */
  lemma CounterSticks(grid: Pos, other: Pos, blockType: BlockType)
    ensures var once := Spawned(Fleet([], U32_MAX), grid, blockType);
            var twice := Spawned(once, other, blockType);
            once.next == U32_MAX && twice.blocks == [NewBlock(U32_MAX, Center(other), blockType)]
  {}

  class FallingBlockSystem {
    var blocks: seq<FallingBlock>
    var nextEntityId: nat

    ghost function View(): Fleet
      reads this
    {
      Fleet(blocks, nextEntityId)
    }

    constructor ()
      ensures View() == Fleet([], 1) && Sound(View())
    {
      blocks, nextEntityId := [], 1;
    }

    method AdvanceCounterPast(id: nat)
      requires id <= U32_MAX
      modifies this`nextEntityId
      ensures nextEntityId == AdvancedPast(old(nextEntityId), id)
    {
      var after := (id + 1) % (U32_MAX + 1);
      after := if after == 0 then 1 else after;
      nextEntityId := if nextEntityId > after then nextEntityId else after;
    }

    /** The identifier given to the block, or None at capacity. */
    method Spawn(grid: Pos, blockType: BlockType) returns (id: Option<nat>)
      requires Sound(View())
      modifies this
      ensures View() == Spawned(old(View()), grid, blockType) && Sound(View())
      ensures id == if |old(blocks)| >= MAX_FALLING_BLOCKS then None else Some(old(nextEntityId))
    {
      SpawnKeepsSound(View(), grid, blockType);
      if |blocks| >= MAX_FALLING_BLOCKS {
        return None;
      }
      var entityId := nextEntityId;
      AdvanceCounterPast(entityId);
      var b := NewBlock(entityId, Center(grid), blockType);
      var existing := IndexOf(blocks, entityId);
      if existing.Some? {
        blocks := blocks[existing.value := b];
      } else {
        blocks := blocks + [b];
      }
      return Some(entityId);
    }

    /** A spawn under an identifier chosen elsewhere. */
    method SpawnWithId(id: nat, grid: Pos, blockType: BlockType) returns (ok: bool)
      requires Sound(View()) && id <= U32_MAX
      modifies this
      ensures View() == SpawnedWithId(old(View()), id, grid, blockType) && Sound(View())
      ensures ok == (|old(blocks)| < MAX_FALLING_BLOCKS)
      ensures ok ==> IndexOf(blocks, id).Some? && blocks[IndexOf(blocks, id).value] == NewBlock(id, Center(grid), blockType)
    {
      SpawnWithIdKeepsSound(View(), id, grid, blockType);
      if |blocks| >= MAX_FALLING_BLOCKS {
        return false;
      }
      AdvanceCounterPast(id);
      var b := NewBlock(id, Center(grid), blockType);
      var existing := IndexOf(blocks, id);
      if existing.Some? {
        blocks := blocks[existing.value := b];
        assert blocks[existing.value].entityId == id;
      } else {
        blocks := blocks + [b];
        assert blocks[|blocks| - 1].entityId == id;
      }
      return true;
    }

    /** True when a block was removed. */
    method RemoveById(id: nat) returns (removed: bool)
      requires Sound(View())
      modifies this`blocks
      ensures blocks == Without(old(blocks), id) && Sound(View())
      ensures removed <==> exists b :: b in old(blocks) && b.entityId == id
    {
      RemoveKeepsSound(View(), id);
      var kept := [];
      for k := 0 to |blocks|
        invariant kept == Without(blocks[..k], id) && |kept| <= k
        invariant |kept| < k <==> exists j :: 0 <= j < k && blocks[j].entityId == id
      {
        assert blocks[..k + 1][..k] == blocks[..k];
        if blocks[k].entityId != id {
          kept := kept + [blocks[k]];
        }
      }
      assert blocks[..|blocks|] == blocks;
      removed := |kept| < |blocks|;
      blocks := kept;
    }

    /** One step of every block; returns those that landed in the world. */
    method Update(dt: real, isSolid: Pos -> bool) returns (landed: seq<LandedBlock>)
      requires Sound(View())
      modifies this`blocks
      ensures Sound(View()) && blocks == AfterStep(Flying(old(blocks), dt, isSolid), dt)
      ensures landed == Landings(old(blocks), dt, isSolid)
    {
      StepKeepsSound(View(), dt, isSolid);
      var all, kept := blocks, [];
      landed := [];
      for k := 0 to |all|
        invariant kept == AfterStep(Flying(all[..k], dt, isSolid), dt)
        invariant landed == Landings(all[..k], dt, isSolid)
      {
        assert all[..k + 1][..k] == all[..k];
        var b, land := UpdateBlock(all[k], dt, isSolid);
        if land.Some? {
          if land.value.y >= 0 {
            landed := landed + [LandedBlock(b.entityId, land.value, b.blockType)];
          }
        } else {
          AfterStepAppend(Flying(all[..k], dt, isSolid), all[k], dt);
          kept := kept + [b];
        }
      }
      assert all[..|all|] == all;
      blocks := kept;
    }
  }

  lemma AfterStepAppend(blocks: seq<FallingBlock>, b: FallingBlock, dt: real)
    ensures AfterStep(blocks + [b], dt) == AfterStep(blocks, dt) + [Flown(b, dt)]
  {}
}
