/** Blocks that leave the world to fall, or break: what each event does, and what all of them preserve. */
module BlockMoves {
  import opened Geometry
  import opened BlockTypes
  import opened Worlds
  import opened FallingBlocks
  import opened FallingBlockSystems

  /** The static blocks and the falling ones. */
  datatype Scene = Scene(blocks: Blocks, fleet: Fleet)

  datatype SpawnEvent = SpawnEvent(entityId: nat, position: Pos, blockType: BlockType)

  datatype Event = Fell(spawn: SpawnEvent) | Broke(at: Pos) {
    function Position(): Pos {
      if Fell? then spawn.position else at
    }
  }

  function BlockOf(e: Event): BlockType {
    if e.Fell? then e.spawn.blockType else Model
  }

  function Happened(s: Scene, e: Event): Scene {
    Scene(s.blocks.Put(e.Position(), Air),
          if e.Fell? then Spawned(s.fleet, e.spawn.position, e.spawn.blockType) else s.fleet)
  }

  /** The event names the block that is there; a spawn is below the capacity and uses the next identifier. */
  predicate CanHappen(s: Scene, e: Event) {
    && s.blocks.Get(e.Position()) == Some(BlockOf(e)) && BlockOf(e) != Air
    && (e.Fell? ==> |s.fleet.blocks| < MAX_FALLING_BLOCKS && e.spawn.entityId == s.fleet.next)
  }

  function After(s: Scene, log: seq<Event>): Scene {
    if log == [] then s else Happened(After(s, log[..|log| - 1]), log[|log| - 1])
  }

  ghost predicate Truthful(s: Scene, log: seq<Event>) {
    log == [] || (Truthful(s, log[..|log| - 1]) && CanHappen(After(s, log[..|log| - 1]), log[|log| - 1]))
  }

  lemma {:induction false} Then(s: Scene, log: seq<Event>, more: seq<Event>)
    requires Truthful(s, log) && Truthful(After(s, log), more)
    ensures Truthful(s, log + more) && After(s, log + more) == After(After(s, log), more)
  {
    if more == [] {
      assert log + more == log;
    } else {
      var init := more[..|more| - 1];
      Then(s, log, init);
      assert (log + more)[..|log + more| - 1] == log + init;
      assert After(s, log + more) == Happened(After(s, log + init), more[|more| - 1]);
    }
  }

  function SpawnsOf(log: seq<Event>): seq<SpawnEvent> {
    if log == [] then [] else
      SpawnsOf(log[..|log| - 1]) + (if log[|log| - 1].Fell? then [log[|log| - 1].spawn] else [])
  }

  function BreaksOf(log: seq<Event>): seq<Pos> {
    if log == [] then [] else
      BreaksOf(log[..|log| - 1]) + (if log[|log| - 1].Broke? then [log[|log| - 1].at] else [])
  }

  lemma {:induction false} ProjectionsAppend(log: seq<Event>, more: seq<Event>)
    ensures SpawnsOf(log + more) == SpawnsOf(log) + SpawnsOf(more) && BreaksOf(log + more) == BreaksOf(log) + BreaksOf(more)
  {
    if more == [] {
      assert log + more == log;
    } else {
      ProjectionsAppend(log, more[..|more| - 1]);
      assert (log + more)[..|log + more| - 1] == log + more[..|more| - 1];
    }
  }

  // ----- conservation

  lemma ClearedAt(blocks: Blocks, p: Pos)
    requires blocks.Get(p).Some?
    ensures forall q :: blocks.Put(p, Air).Get(q) == if q == p then Some(Air) else blocks.Get(q)
  {}

  function EntityOf(f: SpawnEvent): FallingBlock {
    NewBlock(f.entityId, Center(f.position), f.blockType)
  }

  function NewEntities(e: Event): seq<FallingBlock> {
    if e.Fell? then [EntityOf(e.spawn)] else []
  }

  /** Stored positions that hold a type of block. */
  function Holding(blocks: Blocks, t: BlockType): set<Pos> {
    set p | p in blocks.cells && blocks.Get(p) == Some(t)
  }

  function FallingOf(blocks: seq<FallingBlock>, t: BlockType): nat {
    if blocks == [] then 0 else
      FallingOf(blocks[..|blocks| - 1], t) + (if blocks[|blocks| - 1].blockType == t then 1 else 0)
  }

  /** Blocks of a type, in the world and in the air. */
  function Amount(s: Scene, t: BlockType): nat {
    |Holding(s.blocks, t)| + FallingOf(s.fleet.blocks, t)
  }

  /** The counter cannot run out before the capacity does. */
  predicate CounterHasRoom(f: Fleet) {
    f.next + MAX_FALLING_BLOCKS <= U32_MAX + |f.blocks|
  }

  lemma HoldingAfterClear(blocks: Blocks, p: Pos, t: BlockType)
    requires blocks.Get(p).Some? && blocks.Get(p) != Some(Air) && t != Air
    ensures |Holding(blocks.Put(p, Air), t)| == |Holding(blocks, t)| - (if blocks.Get(p) == Some(t) then 1 else 0)
  {
    var before, after := Holding(blocks, t), Holding(blocks.Put(p, Air), t);
    ClearedAt(blocks, p);
    forall q
      ensures q in after <==> q in before && q != p
    {
      assert blocks.Put(p, Air).Get(q) == if q == p then Some(Air) else blocks.Get(q);
    }
    assert after == before - {p};
  }

  /** While the counter has room, a spawn appends its block. */
  lemma EventKeepsFleet(s: Scene, e: Event)
    requires Sound(s.fleet) && CounterHasRoom(s.fleet) && CanHappen(s, e)
    ensures Sound(Happened(s, e).fleet) && CounterHasRoom(Happened(s, e).fleet)
    ensures Happened(s, e).fleet.blocks == s.fleet.blocks + NewEntities(e)
  {
    if e.Fell? {
      SpawnAddsIff(s.fleet, e.spawn.position, e.spawn.blockType);
      SpawnKeepsSound(s.fleet, e.spawn.position, e.spawn.blockType);
    }
  }

  lemma FallingOfEvent(blocks: seq<FallingBlock>, e: Event, t: BlockType)
    ensures FallingOf(blocks + NewEntities(e), t)
            == FallingOf(blocks, t) + (if e.Fell? && e.spawn.blockType == t then 1 else 0)
  {
    if e.Fell? {
      assert (blocks + [EntityOf(e.spawn)])[..|blocks|] == blocks;
    } else {
      assert blocks + [] == blocks;
    }
  }

  /** One event: a block that falls is counted in the air instead of in the world. */
  lemma EventConserves(s: Scene, e: Event, t: BlockType)
    requires Sound(s.fleet) && CounterHasRoom(s.fleet) && CanHappen(s, e) && t != Air
    ensures Amount(Happened(s, e), t) == Amount(s, t) - (if e.Broke? && t == Model then 1 else 0)
  {
    EventKeepsFleet(s, e);
    AmountAfter(s.blocks, s.fleet.blocks, e, t);
  }

  lemma AmountAfter(blocks: Blocks, falling: seq<FallingBlock>, e: Event, t: BlockType)
    requires blocks.Get(e.Position()) == Some(BlockOf(e)) && BlockOf(e) != Air && t != Air
    ensures |Holding(blocks.Put(e.Position(), Air), t)| + FallingOf(falling + NewEntities(e), t)
            == |Holding(blocks, t)| + FallingOf(falling, t) - (if e.Broke? && t == Model then 1 else 0)
  {
    FallingOfEvent(falling, e, t);
    HoldingAfterClear(blocks, e.Position(), t);
  }

  lemma {:induction false} FleetStaysSound(s: Scene, log: seq<Event>)
    requires Sound(s.fleet) && CounterHasRoom(s.fleet) && Truthful(s, log)
    ensures Sound(After(s, log).fleet) && CounterHasRoom(After(s, log).fleet)
  {
    if log != [] {
      FleetStaysSound(s, log[..|log| - 1]);
      EventKeepsFleet(After(s, log[..|log| - 1]), log[|log| - 1]);
    }
  }

  /**
   Any number of events, at or below capacity: for every type of block the number in world and air together
   is unchanged, save for one model less at each break.
   */
  lemma {:induction false} BlocksAreConserved(s: Scene, log: seq<Event>, t: BlockType)
    requires Sound(s.fleet) && CounterHasRoom(s.fleet) && Truthful(s, log) && t != Air
    ensures Amount(After(s, log), t) == Amount(s, t) - (if t == Model then |BreaksOf(log)| else 0)
  {
    if log != [] {
      BlocksAreConserved(s, log[..|log| - 1], t);
      FleetStaysSound(s, log[..|log| - 1]);
      EventConserves(After(s, log[..|log| - 1]), log[|log| - 1], t);
    }
  }

  /** The falling blocks that a list of spawn events describes. */
  function Entities(spawns: seq<SpawnEvent>): seq<FallingBlock> {
    if spawns == [] then [] else Entities(spawns[..|spawns| - 1]) + [EntityOf(spawns[|spawns| - 1])]
  }

  function PositionsOf(log: seq<Event>): set<Pos> {
    set e | e in log :: e.Position()
  }

  /** Distinct positions, exactly those cleared, each holding before what its event names. */
  ghost predicate Matches(before: Blocks, log: seq<Event>, after: Blocks) {
    && (forall i, j :: 0 <= i < j < |log| ==> log[i].Position() != log[j].Position())
    && (forall p :: after.Get(p) == if p in PositionsOf(log) then Some(Air) else before.Get(p))
    && (forall k :: 0 <= k < |log| ==> before.Get(log[k].Position()) == Some(BlockOf(log[k])))
  }

  lemma MatchesNext(before: Blocks, log: seq<Event>, after: Blocks, e: Event)
    requires Matches(before, log, after) && after.Get(e.Position()) == Some(BlockOf(e)) && BlockOf(e) != Air
    ensures Matches(before, log + [e], after.Put(e.Position(), Air))
  {}

  /** Events and cleared positions match one to one. */
  lemma {:induction false} EventsMatchClearings(s: Scene, log: seq<Event>)
    requires Truthful(s, log)
    ensures Matches(s.blocks, log, After(s, log).blocks)
  {
    if log != [] {
      var rest, last := log[..|log| - 1], log[|log| - 1];
      EventsMatchClearings(s, rest);
      MatchesNext(s.blocks, rest, After(s, rest).blocks, last);
      assert log == rest + [last];
    }
  }

  lemma SpawnsNext(base: seq<FallingBlock>, log: seq<Event>, before: Scene, e: Event)
    requires Sound(before.fleet) && CounterHasRoom(before.fleet) && CanHappen(before, e)
    requires before.fleet.blocks == base + Entities(SpawnsOf(log))
    ensures Happened(before, e).fleet.blocks == base + Entities(SpawnsOf(log + [e]))
  {
    EventKeepsFleet(before, e);
    EntitiesNext(log, e);
  }

  /** Spawn events and new falling blocks match one to one, in order. */
  lemma {:induction false} SpawnsMatchEntities(s: Scene, log: seq<Event>)
    requires Sound(s.fleet) && CounterHasRoom(s.fleet) && Truthful(s, log)
    ensures After(s, log).fleet.blocks == s.fleet.blocks + Entities(SpawnsOf(log))
  {
    if log == [] {
      assert s.fleet.blocks + [] == s.fleet.blocks;
    } else {
      var rest, last := log[..|log| - 1], log[|log| - 1];
      SpawnsMatchEntities(s, rest);
      FleetStaysSound(s, rest);
      SpawnsNext(s.fleet.blocks, rest, After(s, rest), last);
      assert log == rest + [last];
    }
  }

  lemma EntitiesNext(log: seq<Event>, e: Event)
    ensures Entities(SpawnsOf(log + [e])) == Entities(SpawnsOf(log)) + NewEntities(e)
  {
    assert (log + [e])[..|log|] == log;
    if e.Fell? {
      assert (SpawnsOf(log) + [e.spawn])[..|SpawnsOf(log)|] == SpawnsOf(log);
    } else {
      assert SpawnsOf(log) + [] == SpawnsOf(log);
    }
  }

  /** All blocks but air, in world and air, survive a spawn exactly when its identifier is not live. */
  lemma SpawnKeepsTotalIff(s: Scene, f: SpawnEvent)
    requires Sound(s.fleet) && CanHappen(s, Fell(f))
    ensures |Happened(s, Fell(f)).fleet.blocks| == |s.fleet.blocks| + 1
            <==> s.fleet.next < U32_MAX || IndexOf(s.fleet.blocks, U32_MAX).None?
  {}
}
