/** The queue of physics checks: deduplicated, nearest first, a bounded amount of work per frame. */
module BlockUpdates {
  import opened Geometry
  import opened Distances
  import opened BlockTypes
  import opened Worlds
  import opened FallingBlocks
  import opened FallingBlockSystems
  import opened BlockMoves
  import opened BatchRuns
  import T = TreeLogic

  datatype UpdateType = Gravity | TreeSupport | OrphanedLeaves | ModelGroundSupport

  datatype Key = Key(pos: Pos, kind: UpdateType)

  datatype BlockUpdate = BlockUpdate(key: Key, priority: real)

  const ABOVE: Pos := Pos(0, 1, 0)
  const BELOW: Pos := Pos(0, -1, 0)

  /** What the model registry and the model data say: which models need ground, and which can carry one. */
  datatype Models = Models(needsGround: Pos -> bool, carries: Pos -> bool)

  ghost predicate DistinctKeys(pending: seq<BlockUpdate>) {
    forall i, j :: 0 <= i < j < |pending| ==> pending[i].key != pending[j].key
  }

  function KeysOf(pending: seq<BlockUpdate>): set<Key> {
    set u | u in pending :: u.key
  }

  ghost predicate Sorted(batch: seq<BlockUpdate>) {
    forall i, j :: 0 <= i < j < |batch| ==> batch[i].priority <= batch[j].priority
  }

  /** Everything in the first list is at least as near as everything in the second. */
  ghost predicate NoFarther(batch: seq<BlockUpdate>, pending: seq<BlockUpdate>) {
    forall u, v :: u in batch && v in pending ==> u.priority <= v.priority
  }

  /** The update was queued when the player was there. */
  predicate QueuedFor(u: BlockUpdate, player: Vec) {
    u.priority == DistanceSq(u.key.pos, player)
  }

  /** For whatever position of the player both were queued, v is not nearer than u on all axes. */
  ghost predicate NotNearer(u: BlockUpdate, v: BlockUpdate) {
    forall player :: QueuedFor(u, player) && QueuedFor(v, player) ==> !Farther(v.key.pos, u.key.pos, player)
  }

  lemma OrderIsDistance(u: BlockUpdate, v: BlockUpdate)
    requires u.priority <= v.priority
    ensures NotNearer(u, v)
  {
    forall player | QueuedFor(u, player) && QueuedFor(v, player)
      ensures !Farther(v.key.pos, u.key.pos, player)
    {
      if Farther(v.key.pos, u.key.pos, player) {
        FartherIsMore(v.key.pos, u.key.pos, player);
      }
    }
  }

  lemma MinIsNearest(u: BlockUpdate, pending: seq<BlockUpdate>)
    requires forall v :: v in pending ==> u.priority <= v.priority
    ensures forall v :: v in pending ==> NotNearer(u, v)
  {
    forall v | v in pending
      ensures NotNearer(u, v)
    {
      OrderIsDistance(u, v);
    }
  }

  /** The batch is taken from the near end of the queue, and nearest first. */
  lemma BatchIsNearest(batch: seq<BlockUpdate>, rest: seq<BlockUpdate>)
    requires Sorted(batch) && NoFarther(batch, rest)
    ensures forall u, v :: u in batch && v in rest ==> NotNearer(u, v)
    ensures forall i, j :: 0 <= i < j < |batch| ==> NotNearer(batch[i], batch[j])
  {
    forall u, v | u in batch && v in rest
      ensures NotNearer(u, v)
    {
      OrderIsDistance(u, v);
    }
    forall i, j | 0 <= i < j < |batch|
      ensures NotNearer(batch[i], batch[j])
    {
      OrderIsDistance(batch[i], batch[j]);
    }
  }

  /** What is new in the queue has the distance to the player as its priority. */
  ghost predicate Prioritised(before: seq<BlockUpdate>, after: seq<BlockUpdate>, player: Vec) {
    forall u :: u in after ==> u in before || QueuedFor(u, player)
  }

  lemma KeysAppend(pending: seq<BlockUpdate>, u: BlockUpdate)
    ensures KeysOf(pending + [u]) == KeysOf(pending) + {u.key}
  {}

  lemma EntryRemoved(pending: seq<BlockUpdate>, k: nat)
    requires k < |pending|
    ensures var rest := pending[..k] + pending[k + 1..];
            && multiset(pending) == multiset(rest) + multiset{pending[k]}
            && forall u :: u in rest ==> u in pending
  {
    assert pending == pending[..k] + [pending[k]] + pending[k + 1..];
  }

  /** Removing one entry of a list with distinct keys removes its key. */
  lemma KeysRemove(pending: seq<BlockUpdate>, k: nat)
    requires k < |pending| && DistinctKeys(pending)
    ensures var rest := pending[..k] + pending[k + 1..];
            DistinctKeys(rest) && KeysOf(rest) == KeysOf(pending) - {pending[k].key}
  {}

  class BlockUpdateQueue {
    var pending: seq<BlockUpdate>
    var queuedSet: set<Key>
    var maxPerFrame: nat
    var floodEvaluated: set<Key>

    /** The set mirrors the queue, and no key is queued twice. */
    ghost predicate Valid()
      reads this
    {
      DistinctKeys(pending) && queuedSet == KeysOf(pending)
    }

    constructor (maxPerFrame: nat)
      ensures Valid() && pending == [] && this.maxPerFrame == maxPerFrame
    {
      pending, queuedSet, floodEvaluated, this.maxPerFrame := [], {}, {}, maxPerFrame;
    }

    method Enqueue(pos: Pos, kind: UpdateType, player: Vec)
      requires Valid()
      modifies this`pending, this`queuedSet
      ensures Valid() && queuedSet == old(queuedSet) + {Key(pos, kind)}
      ensures pending == old(pending)
                + (if Key(pos, kind) in old(queuedSet) then [] else [BlockUpdate(Key(pos, kind), DistanceSq(pos, player))])
    {
      var key := Key(pos, kind);
      if key !in queuedSet {
        KeysAppend(pending, BlockUpdate(key, DistanceSq(pos, player)));
        assert forall i :: 0 <= i < |pending| ==> pending[i] in pending && pending[i].key in queuedSet;
        queuedSet := queuedSet + {key};
        pending := pending + [BlockUpdate(key, DistanceSq(pos, player))];
      }
    }

    /** Takes out an update that is nearest to the player. */
    method PopNearest() returns (u: BlockUpdate)
      requires Valid() && pending != []
      modifies this`pending, this`queuedSet
      ensures Valid() && queuedSet == old(queuedSet) - {u.key} && u.key in old(queuedSet)
      ensures |pending| == |old(pending)| - 1 && multiset(old(pending)) == multiset(pending) + multiset{u}
      ensures forall v :: v in old(pending) ==> u.priority <= v.priority && NotNearer(u, v)
      ensures forall v :: v in pending ==> v in old(pending)
    {
      var best := 0;
      for k := 1 to |pending|
        invariant 0 <= best < |pending|
        invariant forall j :: 0 <= j < k ==> pending[best].priority <= pending[j].priority
      {
        if pending[k].priority < pending[best].priority {
          best := k;
        }
      }
      u := pending[best];
      KeysRemove(pending, best);
      EntryRemoved(pending, best);
      assert u in pending;
      MinIsNearest(u, pending);
      pending := pending[..best] + pending[best + 1..];
      queuedSet := queuedSet - {u.key};
    }

    /** The nearest updates, nearest first, up to the frame's limit. */
    method TakeBatch() returns (batch: seq<BlockUpdate>)
      requires Valid()
      modifies this`pending, this`queuedSet
      ensures Valid() && |batch| == MinNat(|old(pending)|, maxPerFrame)
      ensures multiset(batch) + multiset(pending) == multiset(old(pending))
      ensures Sorted(batch) && NoFarther(batch, pending)
      ensures forall u, v :: u in batch && v in pending ==> NotNearer(u, v)
      ensures forall i, j :: 0 <= i < j < |batch| ==> NotNearer(batch[i], batch[j])
      ensures queuedSet == old(queuedSet) - KeysOf(batch) && KeysOf(batch) <= old(queuedSet)
    {
      batch := [];
      var count := MinNat(|pending|, maxPerFrame);
      ghost var before, keys := pending, queuedSet;
      for k := 0 to count
        invariant Valid() && |batch| == k && |pending| == |before| - k
        invariant multiset(batch) + multiset(pending) == multiset(before)
        invariant Sorted(batch) && NoFarther(batch, pending)
        invariant queuedSet == keys - KeysOf(batch) && KeysOf(batch) <= keys
      {
        ghost var was := pending;
        var u := PopNearest();
        BatchNext(batch, was, u, pending);
        KeysAppend(batch, u);
        batch := batch + [u];
      }
      BatchIsNearest(batch, pending);
    }

    // ----- the checks

    ghost function Scene(world: World, falling: FallingBlockSystem): BlockMoves.Scene
      reads world, falling
    {
      BlockMoves.Scene(world.blocks, falling.View())
    }

    /** Queues the checks of whatever is above p. */
    method EnqueueAbove(p: Pos, world: World, player: Vec)
      requires Valid()
      modifies this`pending, this`queuedSet
      ensures Valid() && queuedSet == old(queuedSet) + Cascade(world.blocks, p)
      ensures Prioritised(old(pending), pending, player)
    {
      var above := p.Plus(ABOVE);
      Enqueue(above, Gravity, player);
      var aboveBlock := world.blocks.Get(above);
      if aboveBlock.Some? && IsLeaves(aboveBlock.value) {
        Enqueue(above, OrphanedLeaves, player);
      }
    }

    /** A block starts to fall if there is room for it; what was above it is checked next. */
    method Drop(p: Pos, block: BlockType, world: World, falling: FallingBlockSystem, player: Vec)
      returns (spawned: Option<SpawnEvent>)
      requires Valid() && Sound(falling.View()) && world.blocks.Get(p) == Some(block) && block != Air
      modifies this`pending, this`queuedSet, world, falling
      ensures Valid() && Sound(falling.View()) && old(queuedSet) <= queuedSet
      ensures Prioritised(old(pending), pending, player)
      ensures spawned.Some? <==> |old(falling.blocks)| < MAX_FALLING_BLOCKS
      ensures spawned.None? ==> Scene(world, falling) == old(Scene(world, falling)) && queuedSet == old(queuedSet)
      ensures spawned.Some? ==>
                && CanHappen(old(Scene(world, falling)), Fell(spawned.value))
                && Scene(world, falling) == Happened(old(Scene(world, falling)), Fell(spawned.value))
                && spawned.value.position == p && spawned.value.blockType == block
                && queuedSet == old(queuedSet) + Cascade(old(world.blocks), p)
    {
      var id := falling.Spawn(p, block);
      if id.None? {
        return None;
      }
      world.SetBlock(p, Air);
      EnqueueAbove(p, world, player);
      CascadeAfter(old(world.blocks), p);
      return Some(SpawnEvent(id.value, p, block));
    }

    /** Drops a list of blocks one after the other; at capacity the rest stays where it is. */
    method DropAll(tree: seq<T.TreeBlock>, ghost kind: T.Kind, world: World, falling: FallingBlockSystem, player: Vec)
      returns (spawns: seq<SpawnEvent>, ghost log: seq<Event>)
      requires Valid() && Sound(falling.View())
      requires T.DistinctPositions(tree) && T.Truthful(world.blocks, kind, tree)
      modifies this`pending, this`queuedSet, world, falling
      ensures Reported(old(Scene(world, falling)), log, Scene(world, falling), spawns, [])
      ensures Valid() && Sound(falling.View())
      ensures Prioritised(old(pending), pending, player)
      ensures FallsAsRoomAllows(log, tree, Scene(world, falling))
      ensures queuedSet == old(queuedSet) + Cascades(old(Scene(world, falling)), log)
    {
      spawns, log := [], [];
      ghost var start := Scene(world, falling);
      for k := 0 to |tree|
        invariant Prioritised(old(pending), pending, player)
        invariant Dropping(start, log, Scene(world, falling), spawns, tree, k)
        invariant queuedSet == old(queuedSet) + Cascades(start, log)
        invariant Valid() && Sound(falling.View())
      {
        NextIsThere(start, log, Scene(world, falling), kind, tree, k);
        ghost var before := Scene(world, falling);
        var spawned := Drop(tree[k].pos, tree[k].block, world, falling, player);
        DroppingNext(start, log, before, spawns, tree, k, spawned);
        if spawned.Some? {
          CascadesNext(start, log, Fell(spawned.value));
          log := log + [Fell(spawned.value)];
          spawns := spawns + [spawned.value];
        }
      }
      assert tree[..|tree|] == tree;
    }

    method ProcessGravity(p: Pos, world: World, falling: FallingBlockSystem, player: Vec)
      returns (spawns: seq<SpawnEvent>, ghost log: seq<Event>)
      requires Valid() && Sound(falling.View())
      modifies this`pending, this`queuedSet, world, falling
      ensures Reported(old(Scene(world, falling)), log, Scene(world, falling), spawns, [])
      ensures Valid() && Sound(falling.View())
      ensures Prioritised(old(pending), pending, player)
      ensures log == GravityFall(old(Scene(world, falling)), p)
      ensures GivesWay(old(Scene(world, falling)), p, Scene(world, falling))
      ensures queuedSet == old(queuedSet) + Cascades(old(Scene(world, falling)), log)
    {
      spawns, log := GravitySteps(p, world, falling, player);
      GravityLaw(old(Scene(world, falling)), p, log, Scene(world, falling));
    }

    method GravitySteps(p: Pos, world: World, falling: FallingBlockSystem, player: Vec)
      returns (spawns: seq<SpawnEvent>, ghost log: seq<Event>)
      requires Valid() && Sound(falling.View())
      modifies this`pending, this`queuedSet, world, falling
      ensures Reported(old(Scene(world, falling)), log, Scene(world, falling), spawns, [])
      ensures Valid() && Sound(falling.View())
      ensures Prioritised(old(pending), pending, player)
      ensures log == GravityFall(old(Scene(world, falling)), p)
      ensures queuedSet == old(queuedSet) + Cascades(old(Scene(world, falling)), log)
    {
      spawns, log := [], [];
      if YInBounds(p.y) {
        var b := world.blocks.Get(p);
        if b.Some? && IsAffectedByGravity(b.value) {
          ghost var before := Scene(world, falling);
          var spawned := Drop(p, b.value, world, falling, player);
          if spawned.Some? {
            spawns, log := [spawned.value], [Fell(spawned.value)];
            OneEvent(before, Fell(spawned.value));
            CascadesNext(before, [], Fell(spawned.value));
          }
        }
      }
    }

    /** The queried block and its whole cluster need no second search this frame. */
    method MarkEvaluated(p: Pos, found: seq<T.TreeBlock>, kind: UpdateType)
      requires p in T.PositionsOf(found)
      modifies this`floodEvaluated
      ensures floodEvaluated == old(floodEvaluated) + Evaluated(found, kind)
    {
      floodEvaluated := floodEvaluated + {Key(p, kind)} + Evaluated(found, kind);
    }

    method DropUnsupported(tree: seq<T.TreeBlock>, world: World, falling: FallingBlockSystem, player: Vec)
      returns (spawns: seq<SpawnEvent>, ghost log: seq<Event>)
      requires Valid() && Sound(falling.View())
      requires T.DistinctPositions(tree) && T.Truthful(world.blocks, T.Tree, tree)
      modifies this`pending, this`queuedSet, world, falling
      ensures Reported(old(Scene(world, falling)), log, Scene(world, falling), spawns, [])
      ensures Valid() && Sound(falling.View())
      ensures Prioritised(old(pending), pending, player)
      ensures queuedSet == old(queuedSet) + Cascades(old(Scene(world, falling)), log)
      ensures if T.Supported(old(world.blocks), tree, |tree|) then log == []
              else FallsAsRoomAllows(log, tree, Scene(world, falling))
    {
      spawns, log := [], [];
      var supported := T.TreeHasGroundSupport(world.blocks, tree);
      if tree != [] && !supported {
        spawns, log := DropAll(tree, T.Tree, world, falling, player);
      }
    }

    /** A tree that stands on nothing falls whole, as far as there is room; it is searched once a frame. */
    method ProcessTreeSupport(p: Pos, world: World, falling: FallingBlockSystem, player: Vec)
      returns (spawns: seq<SpawnEvent>, work: nat, ghost log: seq<Event>, ghost tree: seq<T.TreeBlock>)
      requires Valid() && Sound(falling.View())
      modifies this, world, falling
      ensures Reported(old(Scene(world, falling)), log, Scene(world, falling), spawns, [])
      ensures Valid() && Sound(falling.View()) && maxPerFrame == old(maxPerFrame)
      ensures Prioritised(old(pending), pending, player)
      ensures TreeOutcome(old(Scene(world, falling)), old(floodEvaluated), p, tree,
                          Scene(world, falling), floodEvaluated, log, work)
      ensures queuedSet == old(queuedSet) + Cascades(old(Scene(world, falling)), log)
    {
      spawns, work, log, tree := [], 0, [], [];
      var b := world.blocks.Get(p);
      if YInBounds(p.y) && b.Some? && IsLog(b.value) {
        if Key(p, TreeSupport) in floodEvaluated {
          return;
        }
        var found := T.FindConnectedTree(world.blocks, p);
        tree, work := found, |found|;
        MarkEvaluated(p, found, TreeSupport);
        spawns, log := DropUnsupported(found, world, falling, player);
      }
    }

    /** A leaf cluster that no log touches falls whole, as far as there is room; it is searched once a frame. */
    method ProcessOrphanedLeaves(p: Pos, world: World, falling: FallingBlockSystem, player: Vec)
      returns (spawns: seq<SpawnEvent>, work: nat, ghost log: seq<Event>, ghost leaves: seq<T.TreeBlock>)
      requires Valid() && Sound(falling.View())
      modifies this, world, falling
      ensures Reported(old(Scene(world, falling)), log, Scene(world, falling), spawns, [])
      ensures Valid() && Sound(falling.View()) && maxPerFrame == old(maxPerFrame)
      ensures Prioritised(old(pending), pending, player)
      ensures ClusterOutcome(old(Scene(world, falling)), old(floodEvaluated), p, leaves,
                             Scene(world, falling), floodEvaluated, log, work)
      ensures queuedSet == old(queuedSet) + Cascades(old(Scene(world, falling)), log)
    {
      spawns, work, log, leaves := [], 0, [], [];
      var b := world.blocks.Get(p);
      if YInBounds(p.y) && b.Some? && IsLeaves(b.value) {
        if Key(p, OrphanedLeaves) in floodEvaluated {
          return;
        }
        var found, hasLog := T.FindLeafCluster(world.blocks, p);
        leaves, work := found, |found|;
        MarkEvaluated(p, found, OrphanedLeaves);
        if !hasLog && found != [] {
          spawns, log := DropAll(found, T.Cluster, world, falling, player);
        }
      }
    }

    /** A model that needs ground breaks when nothing below carries it. */
    method ProcessModelGroundSupport(p: Pos, world: World, falling: FallingBlockSystem, models: Models)
      returns (breaks: seq<Pos>, ghost log: seq<Event>)
      requires Sound(falling.View())
      modifies world
      ensures Reported(old(Scene(world, falling)), log, Scene(world, falling), [], breaks)
      ensures log == ModelBreak(old(world.blocks), p, models)
      ensures Breaks(old(Scene(world, falling)), p, models, Scene(world, falling))
    {
      breaks, log := BreakSteps(p, world, falling, models);
      BreakLaw(old(Scene(world, falling)), p, models, log, Scene(world, falling));
    }

    method BreakSteps(p: Pos, world: World, falling: FallingBlockSystem, models: Models)
      returns (breaks: seq<Pos>, ghost log: seq<Event>)
      requires Sound(falling.View())
      modifies world
      ensures Reported(old(Scene(world, falling)), log, Scene(world, falling), [], breaks)
      ensures log == ModelBreak(old(world.blocks), p, models)
    {
      breaks, log := [], [];
      if p.y >= 1 && YInBounds(p.y) && world.blocks.Get(p) == Some(Model) && models.needsGround(p) {
        var below := p.Plus(BELOW);
        var hasSupport := false;
        var b := world.blocks.Get(below);
        if b.Some? {
          hasSupport := ProvidesSupport(b.value) || (b.value == Model && models.carries(below));
        }
        if !hasSupport {
          OneEvent(Scene(world, falling), Broke(p));
          world.SetBlock(p, Air);
          breaks, log := [p], [Broke(p)];
        }
      }
    }

    // ----- one frame

    ghost function Now(world: World, falling: FallingBlockSystem, work: nat, log: seq<Event>): Moment
      reads this, world, falling
    {
      Moment(Scene(world, falling), floodEvaluated, work, log)
    }

    /** One update of the batch. */
    method Dispatch(u: BlockUpdate, world: World, falling: FallingBlockSystem, models: Models, player: Vec)
      returns (spawns: seq<SpawnEvent>, breaks: seq<Pos>, work: nat, ghost log: seq<Event>)
      requires Valid() && Sound(falling.View())
      modifies this, world, falling
      ensures Reported(old(Scene(world, falling)), log, Scene(world, falling), spawns, breaks)
      ensures Valid() && Sound(falling.View()) && maxPerFrame == old(maxPerFrame)
      ensures Prioritised(old(pending), pending, player)
      ensures Outcome(u.key, old(Scene(world, falling)), old(floodEvaluated),
                      Scene(world, falling), floodEvaluated, log, work, models)
      ensures queuedSet == old(queuedSet) + Cascades(old(Scene(world, falling)), log)
    {
      spawns, breaks := [], [];
      match u.key.kind
      case Gravity =>
        spawns, log := ProcessGravity(u.key.pos, world, falling, player);
        work := 1;
      case TreeSupport =>
        ghost var tree;
        spawns, work, log, tree := ProcessTreeSupport(u.key.pos, world, falling, player);
      case OrphanedLeaves =>
        ghost var leaves;
        spawns, work, log, leaves := ProcessOrphanedLeaves(u.key.pos, world, falling, player);
      case ModelGroundSupport =>
        breaks, log := ProcessModelGroundSupport(u.key.pos, world, falling, models);
        NoCascade(Scene(world, falling), log);
        work := 1;
    }

    /** The next update of the batch: checked while the work limit is not reached, else queued again. */
    method DispatchNext(todo: seq<BlockUpdate>, k: nat, workDone: nat, workCap: nat, spawns: seq<SpawnEvent>, breaks: seq<Pos>,
                        world: World, falling: FallingBlockSystem, models: Models, player: Vec,
                        ghost first: Moment, ghost rest: set<Key>, ghost log: seq<Event>)
      returns (spawns': seq<SpawnEvent>, breaks': seq<Pos>, workDone': nat, ghost log': seq<Event>)
      requires Valid() && k < |todo| && workCap == maxPerFrame
      requires Dispatching(todo, k, workCap, models, first, rest, Now(world, falling, workDone, log), queuedSet, spawns, breaks)
      modifies this, world, falling
      ensures Valid() && maxPerFrame == old(maxPerFrame)
      ensures Prioritised(old(pending), pending, player)
      ensures Dispatching(todo, k + 1, workCap, models, first, rest, Now(world, falling, workDone', log'),
                          queuedSet, spawns', breaks')
    {
      ghost var now, queued := Now(world, falling, workDone, log), queuedSet;
      DispatchingIsSound(todo, k, workCap, models, first, rest, now, queued, spawns, breaks);
      if workDone >= workCap {
        spawns', breaks', workDone', log' := spawns, breaks, workDone, log;
        Enqueue(todo[k].key.pos, todo[k].key.kind, player);
        assert queuedSet == queued + {todo[k].key};
        assert Now(world, falling, workDone, log) == now;
        DispatchingSkips(todo, k, workCap, models, first, rest, now, queued, spawns, breaks);
      } else {
        ghost var more;
        var newSpawns, newBreaks, work;
        newSpawns, newBreaks, work, more := Dispatch(todo[k], world, falling, models, player);
        spawns', breaks', workDone', log' := spawns + newSpawns, breaks + newBreaks, workDone + work, log + more;
        DispatchingGoesOn(todo, k, workCap, models, first, rest, now, queued, spawns, breaks,
                          more, work, newSpawns, newBreaks, Scene(world, falling), floodEvaluated, queuedSet);
        assert Now(world, falling, workDone', log')
            == Moment(Scene(world, falling), floodEvaluated, now.work + work, now.log + more);
      }
    }

    /**
     One frame. `batch` is what was taken, the nearest updates first. `run` holds the moments between the
     checks that were made: as many as the work limit allowed, in the order of the batch; the rest of the
     batch is queued again, with what is above every block that fell. `log` is everything that happened.
     */
    method ProcessUpdates(world: World, falling: FallingBlockSystem, models: Models, player: Vec)
      returns (spawns: seq<SpawnEvent>, breaks: seq<Pos>,
               ghost batch: seq<BlockUpdate>, ghost rest: seq<BlockUpdate>, ghost run: seq<Moment>, ghost log: seq<Event>)
      requires Valid() && Sound(falling.View())
      modifies this, world, falling
      ensures Valid() && Sound(falling.View())
      ensures Reported(old(Scene(world, falling)), log, Scene(world, falling), spawns, breaks)
      ensures |batch| == MinNat(|old(pending)|, old(maxPerFrame)) && Sorted(batch) && NoFarther(batch, rest)
      ensures forall u, v :: u in batch && v in rest ==> NotNearer(u, v)
      ensures forall i, j :: 0 <= i < j < |batch| ==> NotNearer(batch[i], batch[j])
      ensures multiset(batch) + multiset(rest) == multiset(old(pending)) && KeysOf(batch) + KeysOf(rest) == old(queuedSet)
      ensures IsRun(batch, |batch|, RoomBelow(old(maxPerFrame)), Checks(models), run) && (batch != [] ==> |run| > 1)
      ensures run[0] == Moment(old(Scene(world, falling)), {}, 0, [])
      ensures Last(run).scene == Scene(world, falling) && Last(run).log == log
      ensures queuedSet == KeysOf(rest) + KeysOf(batch[|run| - 1..]) + Cascades(old(Scene(world, falling)), log)
      ensures Prioritised(rest, pending, player)
      ensures forall key :: key in old(queuedSet) ==> key in queuedSet || key in KeysOf(batch[..|run| - 1])
      ensures NoModelCheck(batch) ==> breaks == []
      ensures Checked(log, world.blocks, queuedSet)
    {
      floodEvaluated := {};
      ghost var start := Scene(world, falling);
      var todo := TakeBatch();
      batch, rest := todo, pending;
      KeysSplit(old(pending), batch, rest);
      ghost var work;
      spawns, breaks, work, log := RunBatch(todo, world, falling, models, player);
      run := RunOf(batch, rest, old(maxPerFrame), models, Moment(start, {}, 0, []), Now(world, falling, work, log),
                   queuedSet, spawns, breaks);
      FrameEnds(batch, rest, old(maxPerFrame), models, run, queuedSet);
    }

    method RunBatch(todo: seq<BlockUpdate>, world: World, falling: FallingBlockSystem, models: Models, player: Vec)
      returns (spawns: seq<SpawnEvent>, breaks: seq<Pos>, ghost work: nat, ghost log: seq<Event>)
      requires Valid() && Sound(falling.View())
      modifies this, world, falling
      ensures Valid()
      ensures Prioritised(old(pending), pending, player)
      ensures Dispatching(todo, |todo|, old(maxPerFrame), models, old(Now(world, falling, 0, [])), old(queuedSet),
                          Now(world, falling, work, log), queuedSet, spawns, breaks)
    {
      spawns, breaks, log := [], [], [];
      var workDone: nat, workCap := 0, maxPerFrame;
      ghost var first, rest := Now(world, falling, workDone, log), queuedSet;
      DispatchingStarts(todo, workCap, models, first, rest);
      for k := 0 to |todo|
        invariant Prioritised(old(pending), pending, player)
        invariant Valid() && maxPerFrame == workCap
        invariant Dispatching(todo, k, workCap, models, first, rest, Now(world, falling, workDone, log),
                              queuedSet, spawns, breaks)
      {
        spawns, breaks, workDone, log :=
          DispatchNext(todo, k, workDone, workCap, spawns, breaks, world, falling, models, player, first, rest, log);
      }
      work := workDone;
    }
  }

  // ----- what a check does

  /** A block affected by gravity falls when there is room. */
  function GravityFall(s: BlockMoves.Scene, p: Pos): seq<Event> {
    var b := s.blocks.Get(p);
    if YInBounds(p.y) && b.Some? && IsAffectedByGravity(b.value) && |s.fleet.blocks| < MAX_FALLING_BLOCKS
    then [Fell(SpawnEvent(s.fleet.next, p, b.value))] else []
  }

  function ModelBreak(blocks: Blocks, p: Pos, models: Models): seq<Event> {
    if LosesSupport(blocks, p, models) then [Broke(p)] else []
  }

  /** The block at p is gone and every other block is as before. */
  ghost predicate ClearedOnly(before: Blocks, p: Pos, after: Blocks) {
    after.Get(p) == Some(Air) && forall q :: q != p ==> after.Get(q) == before.Get(q)
  }

  /** A falling block at rest in the middle of p. */
  predicate IsAtRest(b: FallingBlock, id: nat, p: Pos, t: BlockType) {
    b == FallingBlock(id, Vec(p.x as real + 0.5, p.y as real + 0.5, p.z as real + 0.5), Vec(0.0, 0.0, 0.0), t, 0.0)
  }

  /**
   A gravity check on blocks and fleet: sand, gravel and snow in range leave the world and are in the air,
   unless 256 blocks are; anything else stays, and nothing else changes.
   */
  ghost predicate GivesWay(before: BlockMoves.Scene, p: Pos, after: BlockMoves.Scene) {
    var b := before.blocks.Get(p);
    if 0 <= p.y < 512 && (b == Some(Sand) || b == Some(Gravel) || b == Some(Snow)) && |before.fleet.blocks| < 256 then
      && ClearedOnly(before.blocks, p, after.blocks)
      && (exists e :: e in after.fleet.blocks && IsAtRest(e, before.fleet.next, p, b.value))
      && (before.fleet.next < U32_MAX ==>
            && |after.fleet.blocks| == |before.fleet.blocks| + 1 && after.fleet.blocks[..|before.fleet.blocks|] == before.fleet.blocks
            && after.fleet.next == before.fleet.next + 1)
    else after == before
  }

  lemma GravityLaw(before: BlockMoves.Scene, p: Pos, log: seq<Event>, after: BlockMoves.Scene)
    requires Sound(before.fleet) && log == GravityFall(before, p) && Moved(before, log, after)
    ensures GivesWay(before, p, after)
  {
    if log != [] {
      var b := before.blocks.Get(p).value;
      assert log[..0] == [] && after == Happened(before, log[0]);
      ClearedAt(before.blocks, p);
      SpawnedIsThere(before.fleet, p, b);
    }
  }

  lemma SpawnedIsThere(f: Fleet, p: Pos, t: BlockType)
    requires Sound(f) && |f.blocks| < MAX_FALLING_BLOCKS
    ensures exists e :: e in Spawned(f, p, t).blocks && IsAtRest(e, f.next, p, t)
    ensures f.next < U32_MAX ==>
              && |Spawned(f, p, t).blocks| == |f.blocks| + 1 && Spawned(f, p, t).blocks[..|f.blocks|] == f.blocks
              && Spawned(f, p, t).next == f.next + 1
  {
    var b := NewBlock(f.next, Center(p), t);
    SpawnAddsIff(f, p, t);
    match IndexOf(f.blocks, f.next) {
      case Some(k) => assert Spawned(f, p, t).blocks[k] == b;
      case None => assert Spawned(f, p, t).blocks[|f.blocks|] == b;
    }
    assert b in Spawned(f, p, t).blocks && IsAtRest(b, f.next, p, t);
  }

  /** A model check on blocks: a model that needs ground breaks over nothing, air, a fluid or a model that carries none. */
  ghost predicate Breaks(before: BlockMoves.Scene, p: Pos, models: Models, after: BlockMoves.Scene) {
    var q := Pos(p.x, p.y - 1, p.z);
    var under := before.blocks.Get(q);
    var bare := under.None? || under.value in {Air, Water, Lava} || (under.value == Model && !models.carries(q));
    if 1 <= p.y < 512 && before.blocks.Get(p) == Some(Model) && models.needsGround(p) && bare
    then ClearedOnly(before.blocks, p, after.blocks) && after.fleet == before.fleet
    else after == before
  }

  lemma BreakLaw(before: BlockMoves.Scene, p: Pos, models: Models, log: seq<Event>, after: BlockMoves.Scene)
    requires log == ModelBreak(before.blocks, p, models) && Moved(before, log, after)
    ensures Breaks(before, p, models, after)
  {
    assert p.Plus(BELOW) == Pos(p.x, p.y - 1, p.z);
    if log != [] {
      assert log[..0] == [] && after == Happened(before, log[0]);
      ClearedAt(before.blocks, p);
    }
  }

  /** The first blocks of the list fell, and all of them unless the capacity is reached. */
  ghost predicate FallsAsRoomAllows(log: seq<Event>, tree: seq<T.TreeBlock>, after: BlockMoves.Scene) {
    IsPrefixOf(log, tree) && (|log| < |tree| ==> |after.fleet.blocks| >= MAX_FALLING_BLOCKS)
  }

  /** A tree not yet searched this frame falls exactly when it stands on nothing. */
  ghost predicate TreeOutcome(before: BlockMoves.Scene, evaluated: set<Key>, p: Pos, tree: seq<T.TreeBlock>,
                              after: BlockMoves.Scene, evaluated': set<Key>, log: seq<Event>, work: nat)
  {
    var b := before.blocks.Get(p);
    if YInBounds(p.y) && b.Some? && IsLog(b.value) && Key(p, TreeSupport) !in evaluated
    then && T.IsFlood(before.blocks, T.Tree, p, tree) && work == |tree|
         && (if T.Supported(before.blocks, tree, |tree|) then log == [] else FallsAsRoomAllows(log, tree, after))
         && evaluated' == evaluated + Evaluated(tree, TreeSupport)
    else log == [] && work == 0 && evaluated' == evaluated
  }

  /** A leaf cluster not yet searched this frame falls exactly when no log touches it. */
  ghost predicate ClusterOutcome(before: BlockMoves.Scene, evaluated: set<Key>, p: Pos, leaves: seq<T.TreeBlock>,
                                 after: BlockMoves.Scene, evaluated': set<Key>, log: seq<Event>, work: nat)
  {
    var b := before.blocks.Get(p);
    if YInBounds(p.y) && b.Some? && IsLeaves(b.value) && Key(p, OrphanedLeaves) !in evaluated
    then && T.IsFlood(before.blocks, T.Cluster, p, leaves) && work == |leaves|
         && (if Attached(before.blocks, leaves) then log == [] else FallsAsRoomAllows(log, leaves, after))
         && evaluated' == evaluated + Evaluated(leaves, OrphanedLeaves)
    else log == [] && work == 0 && evaluated' == evaluated
  }

  /** What the check of one key does to the blocks and to the clusters already searched, and what it counts as. */
  ghost predicate Outcome(key: Key, before: BlockMoves.Scene, evaluated: set<Key>,
                          after: BlockMoves.Scene, evaluated': set<Key>, log: seq<Event>, work: nat, models: Models)
  {
    match key.kind
    case Gravity => log == GravityFall(before, key.pos) && work == 1 && evaluated' == evaluated
    case TreeSupport => exists tree :: TreeOutcome(before, evaluated, key.pos, tree, after, evaluated', log, work)
    case OrphanedLeaves => exists leaves :: ClusterOutcome(before, evaluated, key.pos, leaves, after, evaluated', log, work)
    case ModelGroundSupport => log == ModelBreak(before.blocks, key.pos, models) && work == 1 && evaluated' == evaluated
  }

  // ----- a frame as a run of checks

  /** Between two checks: the blocks, the clusters already searched, the work done, and all that happened. */
  datatype Moment = Moment(scene: BlockMoves.Scene, evaluated: set<Key>, work: nat, log: seq<Event>)

  /** One check leads from one moment to the next. */
  ghost predicate Dispatched(u: BlockUpdate, before: Moment, after: Moment, models: Models) {
    exists more, work: nat ::
      && Moved(before.scene, more, after.scene)
      && Outcome(u.key, before.scene, before.evaluated, after.scene, after.evaluated, more, work, models)
      && after.log == before.log + more && after.work == before.work + work
  }

  /** The work limit is not reached. */
  function RoomBelow(workCap: nat): Moment -> bool {
    (m: Moment) => m.work < workCap
  }

  /** The step of a run of checks. */
  ghost function Checks(models: Models): (BlockUpdate, Moment, Moment) -> bool {
    (u, before, after) => Dispatched(u, before, after, models)
  }

  lemma CheckMade(u: BlockUpdate, models: Models, before: Moment,
                  more: seq<Event>, scene: BlockMoves.Scene, evaluated: set<Key>, work: nat)
    requires Moved(before.scene, more, scene)
    requires Outcome(u.key, before.scene, before.evaluated, scene, evaluated, more, work, models)
    ensures Dispatched(u, before, Moment(scene, evaluated, before.work + work, before.log + more), models)
  {}

  /** The queue after one more update of the batch: checked, or queued again. */
  lemma QueuedNext(todo: seq<BlockUpdate>, done: nat, k: nat, room: bool, rest: set<Key>,
                   queued: set<Key>, cascades: set<Key>, queued': set<Key>, cascades': set<Key>)
    requires done <= k < |todo| && (room ==> done == k)
    requires queued == rest + KeysOf(todo[done..k]) + cascades
    requires if room then queued' == queued + cascades' && cascades <= cascades'
             else queued' == queued + {todo[k].key} && cascades' == cascades
    ensures queued' == rest + KeysOf(todo[(if room then k + 1 else done)..k + 1]) + cascades'
  {
    if room {
      assert todo[done..k] == [] && todo[k + 1..k + 1] == [];
    } else {
      assert todo[done..k + 1] == todo[done..k] + [todo[k]];
      KeysAppend(todo[done..k], todo[k]);
    }
  }

  /** The first k updates of the batch are dealt with, from the moment `first` to `now`. */
  ghost predicate Dispatching(batch: seq<BlockUpdate>, k: nat, workCap: nat, models: Models, first: Moment, rest: set<Key>,
                              now: Moment, queued: set<Key>, spawns: seq<SpawnEvent>, breaks: seq<Pos>)
    requires k <= |batch|
  {
    exists done: nat :: DispatchedTo(batch, k, workCap, models, first, rest, done, now, queued, spawns, breaks)
  }

  /** `done` updates were checked; the queue holds what was left, the unchecked ones, and what the falls ask for. */
  ghost predicate DispatchedTo(batch: seq<BlockUpdate>, k: nat, workCap: nat, models: Models, first: Moment, rest: set<Key>,
                               done: nat, now: Moment, queued: set<Key>, spawns: seq<SpawnEvent>, breaks: seq<Pos>)
    requires k <= |batch|
  {
    && Sound(now.scene.fleet) && done <= k
    && Reported(first.scene, now.log, now.scene, spawns, breaks)
    && Midway(batch, k, RoomBelow(workCap), Checks(models), first, now, done)
    && queued == rest + KeysOf(batch[done..k]) + Cascades(first.scene, now.log)
  }

  lemma DispatchingIsSound(batch: seq<BlockUpdate>, k: nat, workCap: nat, models: Models, first: Moment, rest: set<Key>,
                           now: Moment, queued: set<Key>, spawns: seq<SpawnEvent>, breaks: seq<Pos>)
    requires k <= |batch| && Dispatching(batch, k, workCap, models, first, rest, now, queued, spawns, breaks)
    ensures Sound(now.scene.fleet)
  {}

  lemma DispatchingStarts(batch: seq<BlockUpdate>, workCap: nat, models: Models, first: Moment, rest: set<Key>)
    requires Sound(first.scene.fleet) && first.log == []
    ensures Dispatching(batch, 0, workCap, models, first, rest, first, rest, [], [])
  {
    MidwayFirst(batch, RoomBelow(workCap), Checks(models), first);
    assert batch[0..0] == [];
    assert DispatchedTo(batch, 0, workCap, models, first, rest, 0, first, rest, [], []);
  }

  lemma DispatchingSkips(batch: seq<BlockUpdate>, k: nat, workCap: nat, models: Models, first: Moment, rest: set<Key>,
                         now: Moment, queued: set<Key>, spawns: seq<SpawnEvent>, breaks: seq<Pos>)
    requires k < |batch| && Dispatching(batch, k, workCap, models, first, rest, now, queued, spawns, breaks)
    requires now.work >= workCap
    ensures Dispatching(batch, k + 1, workCap, models, first, rest, now, queued + {batch[k].key}, spawns, breaks)
  {
    var done: nat :| DispatchedTo(batch, k, workCap, models, first, rest, done, now, queued, spawns, breaks);
    MidwayNext(batch, k, RoomBelow(workCap), Checks(models), first, now, done, now);
    var cascades := Cascades(first.scene, now.log);
    QueuedNext(batch, done, k, false, rest, queued, cascades, queued + {batch[k].key}, cascades);
    assert DispatchedTo(batch, k + 1, workCap, models, first, rest, done, now, queued + {batch[k].key}, spawns, breaks);
  }

  lemma QueueGoesOn(batch: seq<BlockUpdate>, done: nat, k: nat, rest: set<Key>, start: BlockMoves.Scene, now: Moment,
                    more: seq<Event>, queued: set<Key>, queued': set<Key>)
    requires done == k < |batch| && Moved(start, now.log, now.scene) && Truthful(now.scene, more)
    requires queued == rest + KeysOf(batch[done..k]) + Cascades(start, now.log) && queued' == queued + Cascades(now.scene, more)
    ensures queued' == rest + KeysOf(batch[k + 1..k + 1]) + Cascades(start, now.log + more)
  {
    CascadesThen(start, now.log, more);
    QueuedNext(batch, done, k, true, rest, queued, Cascades(start, now.log), queued', Cascades(start, now.log + more));
  }

  lemma DispatchingGoesOn(batch: seq<BlockUpdate>, k: nat, workCap: nat, models: Models, first: Moment, rest: set<Key>,
                          now: Moment, queued: set<Key>, spawns: seq<SpawnEvent>, breaks: seq<Pos>,
                          more: seq<Event>, work: nat, newSpawns: seq<SpawnEvent>, newBreaks: seq<Pos>,
                          scene: BlockMoves.Scene, evaluated: set<Key>, queued': set<Key>)
    requires k < |batch| && Dispatching(batch, k, workCap, models, first, rest, now, queued, spawns, breaks)
    requires now.work < workCap && Sound(scene.fleet) && Reported(now.scene, more, scene, newSpawns, newBreaks)
    requires Outcome(batch[k].key, now.scene, now.evaluated, scene, evaluated, more, work, models)
    requires queued' == queued + Cascades(now.scene, more)
    ensures Dispatching(batch, k + 1, workCap, models, first, rest,
                        Moment(scene, evaluated, now.work + work, now.log + more), queued', spawns + newSpawns, breaks + newBreaks)
  {
    var done: nat :| DispatchedTo(batch, k, workCap, models, first, rest, done, now, queued, spawns, breaks);
    var next := Moment(scene, evaluated, now.work + work, now.log + more);
    CheckMade(batch[k], models, now, more, scene, evaluated, work);
    MidwayNext(batch, k, RoomBelow(workCap), Checks(models), first, now, done, next);
    ReportedThen(first.scene, now.log, now.scene, spawns, breaks, more, scene, newSpawns, newBreaks);
    QueueGoesOn(batch, done, k, rest, first.scene, now, more, queued, queued');
    assert DispatchedTo(batch, k + 1, workCap, models, first, rest, k + 1, next, queued', spawns + newSpawns, breaks + newBreaks);
  }

  /** The run of a whole batch: nothing is lost, and what is above every fall is queued. */
  lemma RunOf(batch: seq<BlockUpdate>, rest: seq<BlockUpdate>, workCap: nat, models: Models, first: Moment, end: Moment,
              queued: set<Key>, spawns: seq<SpawnEvent>, breaks: seq<Pos>)
    returns (run: seq<Moment>)
    requires Dispatching(batch, |batch|, workCap, models, first, KeysOf(rest), end, queued, spawns, breaks)
    requires first.work == 0 && first.log == [] && (batch != [] ==> workCap > 0)
    ensures Sound(end.scene.fleet) && Reported(first.scene, end.log, end.scene, spawns, breaks)
    ensures IsRun(batch, |batch|, RoomBelow(workCap), Checks(models), run) && (batch != [] ==> |run| > 1)
    ensures run[0] == first && Last(run) == end
    ensures queued == KeysOf(rest) + KeysOf(batch[|run| - 1..]) + Cascades(first.scene, end.log)
  {
    var done: nat :| DispatchedTo(batch, |batch|, workCap, models, first, KeysOf(rest), done, end, queued, spawns, breaks);
    run :| IsRunTo(batch, |batch|, RoomBelow(workCap), Checks(models), first, end, done, run);
    assert batch[done..|batch|] == batch[done..];
  }

  /** Nothing is lost, what is above every fall is checked next, and only a model check breaks models. */
  lemma FrameEnds(batch: seq<BlockUpdate>, rest: seq<BlockUpdate>, workCap: nat, models: Models, run: seq<Moment>, queued: set<Key>)
    requires IsRun(batch, |batch|, RoomBelow(workCap), Checks(models), run) && run[0].log == []
    requires Moved(run[0].scene, Last(run).log, Last(run).scene)
    requires queued == KeysOf(rest) + KeysOf(batch[|run| - 1..]) + Cascades(run[0].scene, Last(run).log)
    ensures forall key :: key in KeysOf(batch) + KeysOf(rest) ==> key in queued || key in KeysOf(batch[..|run| - 1])
    ensures Checked(Last(run).log, Last(run).scene.blocks, queued)
    ensures NoModelCheck(batch) ==> BreaksOf(Last(run).log) == []
  {
    NothingLost(batch, rest, |run| - 1, queued);
    CascadesAreChecks(run[0].scene, Last(run).log, queued);
    if NoModelCheck(batch) {
      OnlyModelsBreak(batch, workCap, models, run);
    }
  }

  lemma KeysSplit(pending: seq<BlockUpdate>, batch: seq<BlockUpdate>, rest: seq<BlockUpdate>)
    requires multiset(batch) + multiset(rest) == multiset(pending)
    ensures KeysOf(batch) + KeysOf(rest) == KeysOf(pending)
  {
    assert forall u :: u in pending <==> u in multiset(pending);
    assert forall u :: u in batch <==> u in multiset(batch);
    assert forall u :: u in rest <==> u in multiset(rest);
  }

  /** The log leads from one scene to the other and the two lists are what it says. */
  ghost predicate Reported(before: BlockMoves.Scene, log: seq<Event>, after: BlockMoves.Scene,
                           spawns: seq<SpawnEvent>, breaks: seq<Pos>)
  {
    Moved(before, log, after) && SpawnsOf(log) == spawns && BreaksOf(log) == breaks
  }

  lemma ReportedThen(start: BlockMoves.Scene, log: seq<Event>, before: BlockMoves.Scene, spawns: seq<SpawnEvent>, breaks: seq<Pos>,
                     more: seq<Event>, after: BlockMoves.Scene, newSpawns: seq<SpawnEvent>, newBreaks: seq<Pos>)
    requires Reported(start, log, before, spawns, breaks) && Reported(before, more, after, newSpawns, newBreaks)
    ensures Reported(start, log + more, after, spawns + newSpawns, breaks + newBreaks)
  {
    MovedThen(start, log, before, more, after);
  }

  /**
   What one frame does to the blocks: it conserves every type but broken models, its events match the
   cleared positions one to one, and its spawn events match the new falling blocks one to one.
   */
  lemma FrameConserves(before: BlockMoves.Scene, log: seq<Event>, after: BlockMoves.Scene,
                       spawns: seq<SpawnEvent>, breaks: seq<Pos>, t: BlockType)
    requires Reported(before, log, after, spawns, breaks) && Sound(before.fleet) && CounterHasRoom(before.fleet) && t != Air
    ensures Amount(after, t) == Amount(before, t) - (if t == Model then |breaks| else 0)
    ensures Matches(before.blocks, log, after.blocks) && after.fleet.blocks == before.fleet.blocks + Entities(spawns)
  {
    BlocksAreConserved(before, log, t);
    EventsMatchClearings(before, log);
    SpawnsMatchEntities(before, log);
  }

  ghost predicate NoModelCheck(batch: seq<BlockUpdate>) {
    forall k :: 0 <= k < |batch| ==> !batch[k].key.kind.ModelGroundSupport?
  }

  /** Part of a list was dropped: the first blocks of it, and all of them unless the capacity is reached. */
  ghost predicate Dropping(start: BlockMoves.Scene, log: seq<Event>, now: BlockMoves.Scene, spawns: seq<SpawnEvent>,
                           tree: seq<T.TreeBlock>, k: nat)
    requires k <= |tree|
  {
    && Reported(start, log, now, spawns, [])
    && IsPrefixOf(log, tree[..k]) && (|log| < k ==> |now.fleet.blocks| >= MAX_FALLING_BLOCKS)
  }

  lemma DroppingNext(start: BlockMoves.Scene, log: seq<Event>, before: BlockMoves.Scene, spawns: seq<SpawnEvent>,
                     tree: seq<T.TreeBlock>, k: nat, spawned: Option<SpawnEvent>)
    requires k < |tree| && Dropping(start, log, before, spawns, tree, k)
    requires spawned.Some? ==> && CanHappen(before, Fell(spawned.value))
                               && spawned.value.position == tree[k].pos && spawned.value.blockType == tree[k].block
    requires spawned.None? ==> |before.fleet.blocks| >= MAX_FALLING_BLOCKS
    ensures spawned.None? ==> Dropping(start, log, before, spawns, tree, k + 1)
    ensures spawned.Some? ==>
              Dropping(start, log + [Fell(spawned.value)], Happened(before, Fell(spawned.value)), spawns + [spawned.value], tree, k + 1)
  {}

  predicate LeavesAt(blocks: Blocks, p: Pos) {
    blocks.Get(p).Some? && IsLeaves(blocks.Get(p).value)
  }

  /** What is checked next when the block at p starts to fall. */
  function Cascade(blocks: Blocks, p: Pos): set<Key> {
    {Key(p.Plus(ABOVE), Gravity)} + (if LeavesAt(blocks, p.Plus(ABOVE)) then {Key(p.Plus(ABOVE), OrphanedLeaves)} else {})
  }

  /** Clearing a block does not change what is above it. */
  lemma CascadeAfter(blocks: Blocks, p: Pos)
    requires blocks.Get(p).Some?
    ensures Cascade(blocks.Put(p, Air), p) == Cascade(blocks, p)
  {}

  /** The check of whatever is above a block that fell is queued, and a leaf that is still there has its own. */
  ghost predicate Checked(log: seq<Event>, blocks: Blocks, queued: set<Key>) {
    forall k :: 0 <= k < |log| && log[k].Fell? ==> CheckedAbove(log[k].spawn.position, blocks, queued)
  }

  predicate CheckedAbove(p: Pos, blocks: Blocks, queued: set<Key>) {
    var above := Pos(p.x, p.y + 1, p.z);
    Key(above, Gravity) in queued && (LeavesAt(blocks, above) ==> Key(above, OrphanedLeaves) in queued)
  }

  /** What is checked next after all the falls of a log. */
  function Cascades(s: BlockMoves.Scene, log: seq<Event>): set<Key> {
    if log == [] then {} else
      var init, e := log[..|log| - 1], log[|log| - 1];
      Cascades(s, init) + (if e.Fell? then Cascade(After(s, init).blocks, e.spawn.position) else {})
  }

  lemma CascadesNext(s: BlockMoves.Scene, log: seq<Event>, e: Event)
    ensures Cascades(s, log + [e]) == Cascades(s, log) + (if e.Fell? then Cascade(After(s, log).blocks, e.spawn.position) else {})
  {
    assert (log + [e])[..|log|] == log;
  }

  lemma NoCascade(s: BlockMoves.Scene, log: seq<Event>)
    requires forall k :: 0 <= k < |log| ==> log[k].Broke?
    ensures Cascades(s, log) == {}
  {}

  lemma CascadesStep(s: BlockMoves.Scene, log: seq<Event>, init: seq<Event>, e: Event)
    requires Truthful(s, log) && Truthful(After(s, log), init)
    requires Cascades(s, log + init) == Cascades(s, log) + Cascades(After(s, log), init)
    ensures Cascades(s, (log + init) + [e]) == Cascades(s, log) + Cascades(After(s, log), init + [e])
  {
    Then(s, log, init);
    CascadesNext(s, log + init, e);
    CascadesNext(After(s, log), init, e);
  }

  lemma {:induction false} CascadesThen(s: BlockMoves.Scene, log: seq<Event>, more: seq<Event>)
    requires Truthful(s, log) && Truthful(After(s, log), more)
    ensures Cascades(s, log + more) == Cascades(s, log) + Cascades(After(s, log), more)
  {
    if more == [] {
      assert log + more == log;
    } else {
      var init, e := more[..|more| - 1], more[|more| - 1];
      assert more == init + [e] && log + more == (log + init) + [e];
      assert Truthful(After(s, log), init);
      CascadesThen(s, log, init);
      CascadesStep(s, log, init, e);
    }
  }

  /** The cascades of a log are the checks that its falls ask for, as the blocks are at the end. */
  lemma {:induction false} CascadesAreChecks(s: BlockMoves.Scene, log: seq<Event>, queued: set<Key>)
    requires Truthful(s, log) && Cascades(s, log) <= queued
    ensures Checked(log, After(s, log).blocks, queued)
  {
    if log != [] {
      var init, e := log[..|log| - 1], log[|log| - 1];
      CascadesAreChecks(s, init, queued);
      CheckedNext(init, After(s, init).blocks, e, queued);
      assert log == init + [e];
    }
  }

  lemma CheckedNext(log: seq<Event>, before: Blocks, e: Event, queued: set<Key>)
    requires Checked(log, before, queued) && before.Get(e.Position()).Some?
    requires e.Fell? ==> Cascade(before, e.Position()) <= queued
    ensures Checked(log + [e], before.Put(e.Position(), Air), queued)
  {
    var all, after := log + [e], before.Put(e.Position(), Air);
    forall k | 0 <= k < |all| && all[k].Fell?
      ensures CheckedAbove(all[k].spawn.position, after, queued)
    {
      if k < |log| {
        assert all[k] == log[k];
        StillChecked(log[k].spawn.position, before, e.Position(), queued);
      } else {
        StillChecked(e.Position(), before, e.Position(), queued);
      }
    }
  }

  /** Clearing a block asks for no more checks. */
  lemma StillChecked(p: Pos, before: Blocks, cleared: Pos, queued: set<Key>)
    requires before.Get(cleared).Some? && (CheckedAbove(p, before, queued) || Cascade(before, p) <= queued)
    ensures CheckedAbove(p, before.Put(cleared, Air), queued)
  {
    ClearedAt(before, cleared);
    assert p.Plus(ABOVE) == Pos(p.x, p.y + 1, p.z);
  }

  /** The keys of the cluster: other updates for it are skipped for the rest of the frame. */
  function Evaluated(tree: seq<T.TreeBlock>, kind: UpdateType): set<Key> {
    set t | t in tree :: Key(t.pos, kind)
  }

  /** A log touches the cluster. */
  ghost predicate Attached(blocks: Blocks, leaves: seq<T.TreeBlock>) {
    exists p :: p in T.PositionsOf(leaves) && T.TouchesLog(blocks, p)
  }

  predicate LosesSupport(blocks: Blocks, p: Pos, models: Models) {
    var below := blocks.Get(p.Plus(BELOW));
    && p.y >= 1 && YInBounds(p.y) && blocks.Get(p) == Some(Model) && models.needsGround(p)
    && !(below.Some? && (ProvidesSupport(below.value) || (below.value == Model && models.carries(p.Plus(BELOW)))))
  }

  /** The log leads from one scene to the other, each of its events being true when it happened. */
  ghost predicate Moved(before: BlockMoves.Scene, log: seq<Event>, after: BlockMoves.Scene) {
    Truthful(before, log) && after == After(before, log)
  }

  lemma OneEvent(s: BlockMoves.Scene, e: Event)
    requires CanHappen(s, e)
    ensures Moved(s, [e], Happened(s, e))
    ensures SpawnsOf([e]) == (if e.Fell? then [e.spawn] else []) && BreaksOf([e]) == (if e.Broke? then [e.at] else [])
  {}

  lemma MovedThen(start: BlockMoves.Scene, log: seq<Event>, before: BlockMoves.Scene, more: seq<Event>, after: BlockMoves.Scene)
    requires Moved(start, log, before) && Moved(before, more, after)
    ensures Moved(start, log + more, after)
    ensures SpawnsOf(log + more) == SpawnsOf(log) + SpawnsOf(more) && BreaksOf(log + more) == BreaksOf(log) + BreaksOf(more)
  {
    Then(start, log, more);
    ProjectionsAppend(log, more);
  }

  /** The events are the falls of the first blocks of the list, in order. */
  ghost predicate IsPrefixOf(log: seq<Event>, tree: seq<T.TreeBlock>) {
    && |log| <= |tree|
    && forall k :: 0 <= k < |log| ==> log[k].Fell? && log[k].spawn.position == tree[k].pos && log[k].spawn.blockType == tree[k].block
  }

  /** The blocks of the list that have not been tried yet are still there. */
  lemma NextIsThere(start: BlockMoves.Scene, log: seq<Event>, now: BlockMoves.Scene, kind: T.Kind, tree: seq<T.TreeBlock>, k: nat)
    requires Moved(start, log, now) && k < |tree| && IsPrefixOf(log, tree[..k])
    requires T.DistinctPositions(tree) && T.Truthful(start.blocks, kind, tree)
    ensures now.blocks.Get(tree[k].pos) == Some(tree[k].block) && tree[k].block != Air
  {
    EventsMatchClearings(start, log);
    UntriedIsThere(start.blocks, log, now.blocks, kind, tree, k);
  }

  lemma UntriedIsThere(before: Blocks, log: seq<Event>, now: Blocks, kind: T.Kind, tree: seq<T.TreeBlock>, k: nat)
    requires Matches(before, log, now) && k < |tree| && IsPrefixOf(log, tree[..k])
    requires T.DistinctPositions(tree) && T.Truthful(before, kind, tree)
    ensures now.Get(tree[k].pos) == Some(tree[k].block) && tree[k].block != Air
  {}

  lemma BatchNext(batch: seq<BlockUpdate>, was: seq<BlockUpdate>, u: BlockUpdate, pending: seq<BlockUpdate>)
    requires Sorted(batch) && NoFarther(batch, was)
    requires multiset(was) == multiset(pending) + multiset{u}
    requires forall v :: v in was ==> u.priority <= v.priority
    ensures Sorted(batch + [u]) && NoFarther(batch + [u], pending)
    ensures multiset(batch + [u]) + multiset(pending) == multiset(batch) + multiset(was)
  {
    assert u in multiset(was) && u in was;
    assert forall v :: v in pending ==> v in multiset(was);
    assert forall i :: 0 <= i < |batch| ==> batch[i] in batch;
  }

  lemma NothingLost(batch: seq<BlockUpdate>, rest: seq<BlockUpdate>, dispatched: nat, queued: set<Key>)
    requires dispatched <= |batch| && KeysOf(rest) + KeysOf(batch[dispatched..]) <= queued
    ensures forall key :: key in KeysOf(batch) + KeysOf(rest) ==> key in queued || key in KeysOf(batch[..dispatched])
  {
    assert batch == batch[..dispatched] + batch[dispatched..];
  }

  /** Without a model check in the batch nothing breaks. */
  lemma OnlyModelsBreak(batch: seq<BlockUpdate>, workCap: nat, models: Models, run: seq<Moment>)
    requires IsRun(batch, |batch|, RoomBelow(workCap), Checks(models), run) && run[0].log == [] && NoModelCheck(batch)
    ensures BreaksOf(Last(run).log) == []
  {
    var kept := (m: Moment) => BreaksOf(m.log) == [];
    forall u, m, n | u in batch && Checks(models)(u, m, n) && kept(m)
      ensures kept(n)
    {
      OnlyModelsBreakNext(u, m, n, models);
    }
    KeptOverRun(batch, RoomBelow(workCap), Checks(models), run, kept, |run| - 1);
  }

  lemma OnlyModelsBreakNext(u: BlockUpdate, before: Moment, after: Moment, models: Models)
    requires Dispatched(u, before, after, models) && !u.key.kind.ModelGroundSupport? && BreaksOf(before.log) == []
    ensures BreaksOf(after.log) == []
  {
    var more, work: nat :|
      && Moved(before.scene, more, after.scene)
      && Outcome(u.key, before.scene, before.evaluated, after.scene, after.evaluated, more, work, models)
      && after.log == before.log + more && after.work == before.work + work;
    OnlyFalls(more);
    ProjectionsAppend(before.log, more);
  }

  lemma OnlyFalls(log: seq<Event>)
    requires forall k :: 0 <= k < |log| ==> log[k].Fell?
    ensures BreaksOf(log) == []
  {}
}
