/** Flood fills over logs and leaves: which blocks belong to a tree, and which leaves to a cluster. */
module TreeLogic {
  import opened Geometry
  import opened BlockTypes
  import opened Worlds

  datatype TreeBlock = TreeBlock(pos: Pos, block: BlockType)

  /** A tree follows logs and leaves; a cluster follows leaves only. */
  datatype Kind = Tree | Cluster

  predicate IsOffset(o: Pos) {
    -1 <= o.x <= 1 && -1 <= o.y <= 1 && -1 <= o.z <= 1 && o != Pos(0, 0, 0)
  }

  /** Exactly one axis differs. */
  predicate IsCardinal(o: Pos) {
    (if o.x != 0 then 1 else 0) + (if o.y != 0 then 1 else 0) + (if o.z != 0 then 1 else 0) == 1
  }

  predicate Belongs(kind: Kind, b: BlockType) {
    if kind.Tree? then IsTreePart(b) else IsLeaves(b)
  }

  /** Logs connect to their six neighbours only; leaves to all leaves around them. */
  predicate ShouldConnect(b: BlockType, neighbor: BlockType, cardinal: bool) {
    if IsLog(b) || IsLog(neighbor) then cardinal else true
  }

  predicate BelongsAt(blocks: Blocks, kind: Kind, p: Pos) {
    blocks.Get(p).Some? && Belongs(kind, blocks.Get(p).value)
  }

  predicate Linked(blocks: Blocks, kind: Kind, p: Pos, o: Pos) {
    && IsOffset(o) && BelongsAt(blocks, kind, p) && BelongsAt(blocks, kind, p.Plus(o))
    && ShouldConnect(blocks.Get(p).value, blocks.Get(p.Plus(o)).value, IsCardinal(o))
  }

  predicate TouchesLogAt(blocks: Blocks, p: Pos, o: Pos) {
    IsOffset(o) && IsCardinal(o) && blocks.Get(p.Plus(o)).Some? && IsLog(blocks.Get(p.Plus(o)).value)
  }

  ghost predicate TouchesLog(blocks: Blocks, p: Pos) {
    exists o :: TouchesLogAt(blocks, p, o)
  }

  ghost predicate Closed(blocks: Blocks, kind: Kind, s: set<Pos>) {
    forall p, o :: p in s && Linked(blocks, kind, p, o) ==> p.Plus(o) in s
  }

  function PositionsOf(tree: seq<TreeBlock>): set<Pos> {
    set t | t in tree :: t.pos
  }

  ghost predicate DistinctPositions(tree: seq<TreeBlock>) {
    forall i, j :: 0 <= i < j < |tree| ==> tree[i].pos != tree[j].pos
  }

  /** Every entry names the block that is really there. */
  ghost predicate Truthful(blocks: Blocks, kind: Kind, tree: seq<TreeBlock>) {
    forall t :: t in tree ==> blocks.Get(t.pos) == Some(t.block) && Belongs(kind, t.block)
  }

  /** The blocks connected to the start: no more and no fewer, each once. */
  ghost predicate IsFlood(blocks: Blocks, kind: Kind, start: Pos, tree: seq<TreeBlock>) {
    && DistinctPositions(tree) && Truthful(blocks, kind, tree)
    && start in PositionsOf(tree) && Closed(blocks, kind, PositionsOf(tree))
    && forall s :: start in s && Closed(blocks, kind, s) ==> PositionsOf(tree) <= s
  }

  /** In loop order before (x, y, z). */
  predicate Before(o: Pos, x: int, y: int, z: int) {
    o.x < x || (o.x == x && (o.y < y || (o.y == y && o.z < z)))
  }

  /** The 26 offsets around a block. */
  method Neighbors26() returns (offsets: seq<Pos>)
    ensures forall o :: o in offsets <==> IsOffset(o)
  {
    offsets := [];
    for x := -1 to 2
      invariant forall o :: o in offsets <==> IsOffset(o) && Before(o, x, -1, -1)
    {
      for y := -1 to 2
        invariant forall o :: o in offsets <==> IsOffset(o) && Before(o, x, y, -1)
      {
        for z := -1 to 2
          invariant forall o :: o in offsets <==> IsOffset(o) && Before(o, x, y, z)
        {
          if x != 0 || y != 0 || z != 0 {
            offsets := offsets + [Pos(x, y, z)];
          }
        }
      }
    }
  }

  // ----- the search

  /** Reached so far: what is done, what is queued, and that neither strays from the start's component. */
  ghost predicate Reached(blocks: Blocks, kind: Kind, start: Pos, done: set<Pos>, queue: seq<Pos>, visited: set<Pos>) {
    && visited == done + Elements(queue) && done !! Elements(queue)
    && (forall i, j :: 0 <= i < j < |queue| ==> queue[i] != queue[j])
    && (forall p :: p in visited ==> BelongsAt(blocks, kind, p))
    && start in visited
    && (forall s :: start in s && Closed(blocks, kind, s) ==> visited <= s)
  }

  /** The first k offsets of p have been followed. */
  ghost predicate Followed(blocks: Blocks, kind: Kind, p: Pos, offsets: seq<Pos>, k: nat, visited: set<Pos>) {
    forall j :: 0 <= j < k <= |offsets| && Linked(blocks, kind, p, offsets[j]) ==> p.Plus(offsets[j]) in visited
  }

  /** Visits the neighbour of p at one offset, unless it was visited before or is not linked. */
  method Follow(blocks: Blocks, kind: Kind, p: Pos, o: Pos, queue: seq<Pos>, visited: set<Pos>,
                ghost start: Pos, ghost done: set<Pos>)
    returns (queue': seq<Pos>, visited': set<Pos>)
    requires Reached(blocks, kind, start, done, queue, visited) && p in done
    ensures Reached(blocks, kind, start, done, queue', visited') && visited <= visited'
    ensures Linked(blocks, kind, p, o) ==> p.Plus(o) in visited'
    ensures visited' == visited ==> queue' == queue
  {
    queue', visited' := queue, visited;
    if p.Plus(o) !in visited && Linked(blocks, kind, p, o) {
      VisitKeepsReached(blocks, kind, start, done, queue, visited, p, o);
      visited' := visited + {p.Plus(o)};
      queue' := queue + [p.Plus(o)];
    }
  }

  /** Visits the unvisited neighbours of p. */
  method Expand(blocks: Blocks, kind: Kind, p: Pos, offsets: seq<Pos>, queue: seq<Pos>, visited: set<Pos>,
                ghost start: Pos, ghost done: set<Pos>)
    returns (queue': seq<Pos>, visited': set<Pos>, touches: bool)
    requires Reached(blocks, kind, start, done, queue, visited) && p in done
    requires forall o :: o in offsets <==> IsOffset(o)
    ensures Reached(blocks, kind, start, done, queue', visited') && visited <= visited'
    ensures FollowedAll(blocks, kind, p, visited')
    ensures touches <==> TouchesLog(blocks, p)
    ensures visited' == visited ==> queue' == queue
  {
    queue', visited', touches := queue, visited, false;
    for k := 0 to |offsets|
      invariant Reached(blocks, kind, start, done, queue', visited') && visited <= visited'
      invariant Followed(blocks, kind, p, offsets, k, visited')
      invariant touches <==> TouchedAmong(blocks, p, offsets, k)
      invariant visited' == visited ==> queue' == queue
    {
      TouchedNext(blocks, p, offsets, k);
      if TouchesLogAt(blocks, p, offsets[k]) {
        touches := true;
      }
      ghost var before := visited';
      queue', visited' := Follow(blocks, kind, p, offsets[k], queue', visited', start, done);
      FollowedNext(blocks, kind, p, offsets, k, before, visited');
    }
    AllOffsets(blocks, kind, p, offsets, visited');
  }

  ghost predicate FollowedAll(blocks: Blocks, kind: Kind, p: Pos, visited: set<Pos>) {
    forall o :: Linked(blocks, kind, p, o) ==> p.Plus(o) in visited
  }

  ghost predicate TouchedAmong(blocks: Blocks, p: Pos, offsets: seq<Pos>, k: nat) {
    exists j :: 0 <= j < k <= |offsets| && TouchesLogAt(blocks, p, offsets[j])
  }

  lemma FollowedNext(blocks: Blocks, kind: Kind, p: Pos, offsets: seq<Pos>, k: nat, before: set<Pos>, visited: set<Pos>)
    requires k < |offsets| && Followed(blocks, kind, p, offsets, k, before) && before <= visited
    requires Linked(blocks, kind, p, offsets[k]) ==> p.Plus(offsets[k]) in visited
    ensures Followed(blocks, kind, p, offsets, k + 1, visited)
  {}

  lemma TouchedNext(blocks: Blocks, p: Pos, offsets: seq<Pos>, k: nat)
    requires k < |offsets|
    ensures TouchedAmong(blocks, p, offsets, k + 1) <==> TouchedAmong(blocks, p, offsets, k) || TouchesLogAt(blocks, p, offsets[k])
  {}

  lemma AllOffsets(blocks: Blocks, kind: Kind, p: Pos, offsets: seq<Pos>, visited: set<Pos>)
    requires (forall o :: o in offsets <==> IsOffset(o)) && Followed(blocks, kind, p, offsets, |offsets|, visited)
    ensures FollowedAll(blocks, kind, p, visited)
    ensures TouchedAmong(blocks, p, offsets, |offsets|) <==> TouchesLog(blocks, p)
  {}

  lemma VisitKeepsReached(blocks: Blocks, kind: Kind, start: Pos, done: set<Pos>, queue: seq<Pos>, visited: set<Pos>, p: Pos, o: Pos)
    requires Reached(blocks, kind, start, done, queue, visited)
    requires p in done && Linked(blocks, kind, p, o) && p.Plus(o) !in visited
    ensures Reached(blocks, kind, start, done, queue + [p.Plus(o)], visited + {p.Plus(o)})
  {
    var q := p.Plus(o);
    assert Elements(queue + [q]) == Elements(queue) + {q};
    assert forall r :: r in queue ==> r in visited;
  }

  /** The next block of the queue is done. */
  lemma PopKeepsReached(blocks: Blocks, kind: Kind, start: Pos, done: set<Pos>, queue: seq<Pos>, visited: set<Pos>)
    requires Reached(blocks, kind, start, done, queue, visited) && queue != []
    ensures Reached(blocks, kind, start, done + {queue[0]}, queue[1..], visited)
    ensures queue[0] !in done && BelongsAt(blocks, kind, queue[0])
  {}

  /** The search between two blocks. */
  ghost predicate Searching(blocks: Blocks, kind: Kind, start: Pos, tree: seq<TreeBlock>, queue: seq<Pos>, visited: set<Pos>,
                            touches: bool)
  {
    && Reached(blocks, kind, start, PositionsOf(tree), queue, visited)
    && DistinctPositions(tree) && Truthful(blocks, kind, tree)
    && (forall p :: p in PositionsOf(tree) ==> FollowedAll(blocks, kind, p, visited))
    && (touches <==> exists p :: p in PositionsOf(tree) && TouchesLog(blocks, p))
  }

  lemma SearchStarts(blocks: Blocks, kind: Kind, start: Pos)
    requires BelongsAt(blocks, kind, start)
    ensures Searching(blocks, kind, start, [], [start], {start}, false)
  {}

  lemma SearchDone(blocks: Blocks, kind: Kind, start: Pos, tree: seq<TreeBlock>, visited: set<Pos>, touches: bool)
    requires Searching(blocks, kind, start, tree, [], visited, touches)
    ensures IsFlood(blocks, kind, start, tree)
  {}

  lemma TreeGrows(blocks: Blocks, kind: Kind, tree: seq<TreeBlock>, t: TreeBlock)
    requires DistinctPositions(tree) && Truthful(blocks, kind, tree) && t.pos !in PositionsOf(tree)
    requires blocks.Get(t.pos) == Some(t.block) && Belongs(kind, t.block)
    ensures DistinctPositions(tree + [t]) && Truthful(blocks, kind, tree + [t])
    ensures PositionsOf(tree + [t]) == PositionsOf(tree) + {t.pos}
  {}

  /** One block of the search. */
  method SearchNext(blocks: Blocks, kind: Kind, offsets: seq<Pos>, tree: seq<TreeBlock>, queue: seq<Pos>, visited: set<Pos>,
                    touches: bool, ghost start: Pos)
    returns (tree': seq<TreeBlock>, queue': seq<Pos>, visited': set<Pos>, touches': bool)
    requires Searching(blocks, kind, start, tree, queue, visited, touches) && queue != []
    requires forall o :: o in offsets <==> IsOffset(o)
    ensures Searching(blocks, kind, start, tree', queue', visited', touches')
    ensures visited <= visited' && (visited' == visited ==> |queue'| < |queue|)
  {
    var p := queue[0];
    ghost var done := PositionsOf(tree);
    PopKeepsReached(blocks, kind, start, done, queue, visited);
    var t := TreeBlock(p, blocks.Get(p).value);
    tree' := tree + [t];
    TreeGrows(blocks, kind, tree, t);
    var here;
    queue', visited', here := Expand(blocks, kind, p, offsets, queue[1..], visited, start, done + {p});
    touches' := touches || here;
    forall q | q in done
      ensures FollowedAll(blocks, kind, q, visited')
    {
      assert FollowedAll(blocks, kind, q, visited);
    }
  }

  /** Breadth first from a block that belongs; also whether a log touches a visited block. */
  method Flood(blocks: Blocks, kind: Kind, start: Pos) returns (tree: seq<TreeBlock>, touches: bool)
    requires BelongsAt(blocks, kind, start)
    ensures IsFlood(blocks, kind, start, tree)
    ensures touches <==> exists p :: p in PositionsOf(tree) && TouchesLog(blocks, p)
  {
    var offsets := Neighbors26();
    tree, touches := [], false;
    var queue, visited := [start], {start};
    SearchStarts(blocks, kind, start);
    while queue != []
      invariant Searching(blocks, kind, start, tree, queue, visited, touches)
      decreases blocks.cells.Keys - visited, |queue|
    {
      ghost var before := visited;
      tree, queue, visited, touches := SearchNext(blocks, kind, offsets, tree, queue, visited, touches, start);
      VisitedInCells(blocks, kind, before, visited);
    }
    SearchDone(blocks, kind, start, tree, visited, touches);
  }

  /** Visited blocks are never air, so each is stored: the search is bounded. */
  lemma VisitedInCells(blocks: Blocks, kind: Kind, before: set<Pos>, visited: set<Pos>)
    requires before <= visited && forall p :: p in visited ==> BelongsAt(blocks, kind, p)
    ensures visited == before || blocks.cells.Keys - visited < blocks.cells.Keys - before
  {}

  /** All blocks of the tree of a log; nothing when the start is not a log. */
  method FindConnectedTree(blocks: Blocks, start: Pos) returns (tree: seq<TreeBlock>)
    ensures if blocks.Get(start).Some? && IsLog(blocks.Get(start).value)
            then IsFlood(blocks, Tree, start, tree) else tree == []
  {
    tree := [];
    if blocks.Get(start).Some? && IsLog(blocks.Get(start).value) {
      var touches;
      tree, touches := Flood(blocks, Tree, start);
    }
  }

  /** All leaves of a cluster, and whether a log touches one; anything but a leaf counts as connected. */
  method FindLeafCluster(blocks: Blocks, start: Pos) returns (leaves: seq<TreeBlock>, hasLog: bool)
    ensures if BelongsAt(blocks, Cluster, start)
            then IsFlood(blocks, Cluster, start, leaves)
                 && (hasLog <==> exists p :: p in PositionsOf(leaves) && TouchesLog(blocks, p))
            else leaves == [] && hasLog
  {
    leaves, hasLog := [], true;
    if BelongsAt(blocks, Cluster, start) {
      leaves, hasLog := Flood(blocks, Cluster, start);
    }
  }

  /** A log of the tree stands on something that supports it and is not part of a tree. */
  predicate StandsOnGround(blocks: Blocks, t: TreeBlock) {
    var below := blocks.Get(t.pos.Plus(Pos(0, -1, 0)));
    IsLog(t.block) && below.Some? && ProvidesSupport(below.value) && !IsTreePart(below.value)
  }

  ghost predicate Supported(blocks: Blocks, tree: seq<TreeBlock>, k: nat) {
    exists j :: 0 <= j < k <= |tree| && StandsOnGround(blocks, tree[j])
  }

  lemma SupportedNext(blocks: Blocks, tree: seq<TreeBlock>, k: nat)
    requires k < |tree|
    ensures Supported(blocks, tree, k + 1) <==> Supported(blocks, tree, k) || StandsOnGround(blocks, tree[k])
    ensures StandsOnGround(blocks, tree[k]) ==> Supported(blocks, tree, |tree|)
  {}

  method TreeHasGroundSupport(blocks: Blocks, tree: seq<TreeBlock>) returns (supported: bool)
    ensures supported <==> Supported(blocks, tree, |tree|)
  {
    for k := 0 to |tree|
      invariant !Supported(blocks, tree, k)
    {
      SupportedNext(blocks, tree, k);
      if StandsOnGround(blocks, tree[k]) {
        return true;
      }
    }
    return false;
  }

  /** Two logs of one tree have the same tree: skipping the second search changes nothing. */
  lemma SameTree(blocks: Blocks, kind: Kind, start: Pos, tree: seq<TreeBlock>, other: Pos, otherTree: seq<TreeBlock>)
    requires IsFlood(blocks, kind, start, tree) && IsFlood(blocks, kind, other, otherTree)
    requires other in PositionsOf(tree)
    ensures PositionsOf(otherTree) == PositionsOf(tree)
  {
    assert PositionsOf(otherTree) <= PositionsOf(tree);
    if start !in PositionsOf(otherTree) {
      var rest := PositionsOf(tree) - PositionsOf(otherTree);
      forall p, o | p in rest && Linked(blocks, kind, p, o)
        ensures p.Plus(o) in rest
      {
        LinkIsSymmetric(blocks, kind, p, o);
      }
      assert Closed(blocks, kind, rest);
    }
  }

  lemma LinkIsSymmetric(blocks: Blocks, kind: Kind, p: Pos, o: Pos)
    requires Linked(blocks, kind, p, o)
    ensures Linked(blocks, kind, p.Plus(o), Pos(-o.x, -o.y, -o.z)) && p.Plus(o).Plus(Pos(-o.x, -o.y, -o.z)) == p
  {
    var back := Pos(-o.x, -o.y, -o.z);
    assert p.Plus(o).Plus(back) == p;
    assert IsOffset(back) && IsCardinal(back) == IsCardinal(o);
  }
}
