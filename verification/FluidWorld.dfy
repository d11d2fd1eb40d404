/** Lava processing on the world: the tick, its reactions with water, and the blocks it shows. */
module FluidWorlds {
  import opened Geometry
  import opened BlockTypes
  import opened Ledger
  import opened Fluid
  import opened FluidTick
  import opened Worlds
  import opened LavaGrids
  import L = Lava
  import W = WaterGrids
  import WaterCells = Water

  // ----- what a lava tick asks of the world

  predicate LavaStops(blocks: Blocks, p: Pos) {
    !YInBounds(p.y) || match blocks.Get(p) { case None => true case Some(b) => StopsFluid(b) && b != BlockType.Lava }
  }

  predicate HasWorldLava(blocks: Blocks, p: Pos) {
    YInBounds(p.y) && blocks.Get(p) == Some(BlockType.Lava)
  }

  predicate HasWaterAt(blocks: Blocks, water: set<Pos>, p: Pos) {
    p in water || blocks.Get(p) == Some(BlockType.Water)
  }

  function LavaEnv(blocks: Blocks): Env {
    Env(p => LavaStops(blocks, p), (p: Pos) => p.y < 0, p => HasWorldLava(blocks, p))
  }

  function WaterTest(blocks: Blocks, wet: set<Pos>): Pos -> bool {
    p => HasWaterAt(blocks, wet, p)
  }

  /** The positions that hold water. */
  function Wet(cells: map<Pos, WaterCells.WaterCell>): set<Pos> {
    set p | p in cells && cells[p].HasWater()
  }

  // ----- the reaction

  /** The cells, the active sets and the dirty sets of both grids. */
  datatype Fluids = Fluids(water: map<Pos, WaterCells.WaterCell>, wetActive: set<Pos>, wetDirty: set<Pos>,
                           lava: map<Pos, L.LavaCell>, hotActive: set<Pos>, hotDirty: set<Pos>)

  ghost function Grids(water: W.WaterGrid, lava: LavaGrid): Fluids
    reads water, lava
  {
    Fluids(water.cells, water.active, water.dirtyPositions, lava.cells, lava.active, lava.dirtyPositions)
  }

  /** Solid blocks now occupy the positions of s: both fluids are gone there, and the neighbours are woken. */
  ghost predicate Quenched(before: Fluids, s: set<Pos>, after: Fluids) {
    exists wet, hot :: MarkedAll(before.wetDirty, s, wet) && MarkedAll(before.hotDirty, s, hot)
                       && after == Gone(before, s).(wetDirty := wet, hotDirty := hot)
  }

  function Gone(f: Fluids, s: set<Pos>): Fluids {
    f.(water := f.water - s, wetActive := f.wetActive - s, lava := f.lava - s, hotActive := f.hotActive - s)
  }

  function QuenchedAt(f: Fluids, p: Pos): Fluids {
    Gone(f, {p}).(wetDirty := DirtyAfter(f.wetDirty, p), hotDirty := DirtyAfter(f.hotDirty, p))
  }

  lemma GoneTwice(f: Fluids, s: set<Pos>, more: set<Pos>)
    ensures Gone(Gone(f, s), more) == Gone(f, s + more)
  {
    assert f.water - s - more == f.water - (s + more) && f.lava - s - more == f.lava - (s + more);
  }

  lemma QuenchedNext(before: Fluids, s: set<Pos>, f: Fluids, p: Pos)
    requires Quenched(before, s, f)
    ensures Quenched(before, s + {p}, QuenchedAt(f, p))
  {
    MarkedNext(before.wetDirty, s, f.wetDirty, p);
    MarkedNext(before.hotDirty, s, f.hotDirty, p);
    GoneTwice(before, s, {p});
  }

  lemma QuenchedNone(f: Fluids)
    ensures Quenched(f, {}, f)
  {
    assert MarkedAll(f.wetDirty, {}, f.wetDirty) && MarkedAll(f.hotDirty, {}, f.hotDirty);
    assert Gone(f, {}) == f;
  }

  lemma QuenchedThen(before: Fluids, s: set<Pos>, f: Fluids, more: set<Pos>, after: Fluids)
    requires Quenched(before, s, f) && Quenched(f, more, after)
    ensures Quenched(before, s + more, after)
  {
    assert MarkedAll(before.wetDirty, s + more, after.wetDirty) && MarkedAll(before.hotDirty, s + more, after.hotDirty);
    GoneTwice(before, s, more);
  }

  /** Cobblestone at every position of s, in chunks created where they were missing. */
  function Paved(before: Blocks, s: set<Pos>): Blocks {
    Blocks(before.loaded + (set p | p in s :: ChunkOf(p)), before.cells + (map p | p in s :: Cobblestone))
  }

  lemma PavedAt(before: Blocks, s: set<Pos>, p: Pos)
    ensures if p in s then Paved(before, s).Get(p) == Some(Cobblestone)
            else before.Get(p).Some? ==> Paved(before, s).Get(p) == before.Get(p)
  {}

  lemma PavedNext(before: Blocks, s: set<Pos>, pos: Pos)
    ensures Paved(before, s + {pos}) == Paved(before, s).Put(pos, Cobblestone)
  {
    assert Paved(before, s + {pos}).loaded == Paved(before, s).Put(pos, Cobblestone).loaded;
    assert Paved(before, s + {pos}).cells == Paved(before, s).Put(pos, Cobblestone).cells;
  }

  /** Both fluids give way to cobblestone, and the neighbours of both are woken. */
  method FormCobblestone(world: World, water: W.WaterGrid, lava: LavaGrid, pos: Pos)
    modifies world, water`cells, water`active, water`dirtyPositions, lava`cells, lava`active, lava`dirtyPositions
    ensures world.blocks == old(world.blocks).Put(pos, Cobblestone)
    ensures Grids(water, lava) == QuenchedAt(old(Grids(water, lava)), pos)
  {
    water.OnBlockPlaced(pos);
    lava.OnBlockPlaced(pos);
    world.SetBlock(pos, Cobblestone);
  }

  /** The reaction at every position of s, in any order. */
  method FormAll(world: World, water: W.WaterGrid, lava: LavaGrid, s: set<Pos>)
    modifies world, water`cells, water`active, water`dirtyPositions, lava`cells, lava`active, lava`dirtyPositions
    ensures world.blocks == Paved(old(world.blocks), s) && Quenched(old(Grids(water, lava)), s, Grids(water, lava))
  {
    var todo := s;
    ghost var done: set<Pos>, blocks, grids, f := {}, world.blocks, Grids(water, lava), Grids(water, lava);
    PavedNone(world.blocks);
    QuenchedNone(grids);
    while todo != {}
      invariant done + todo == s && f == Grids(water, lava)
      invariant PavingFor(blocks, grids, done, world.blocks, f)
      decreases todo
    {
      var p :| p in todo;
      ghost var was := world.blocks;
      FormCobblestone(world, water, lava, p);
      PavingNext(blocks, grids, done, was, f, p);
      f := Grids(water, lava);
      todo, done := todo - {p}, done + {p};
    }
    assert done == s;
  }

  /** The blocks and the grids once cobblestone was formed at the positions in `done`. */
  ghost predicate PavingFor(before: Blocks, grids: Fluids, done: set<Pos>, now: Blocks, after: Fluids) {
    now == Paved(before, done) && Quenched(grids, done, after)
  }

  lemma PavingNext(before: Blocks, grids: Fluids, done: set<Pos>, was: Blocks, f: Fluids, p: Pos)
    requires PavingFor(before, grids, done, was, f)
    ensures PavingFor(before, grids, done + {p}, was.Put(p, Cobblestone), QuenchedAt(f, p))
  {
    PavedNext(before, done, p);
    QuenchedNext(grids, done, f, p);
  }

  lemma PavedNone(before: Blocks)
    ensures Paved(before, {}) == before
  {
    assert Paved(before, {}).loaded == before.loaded && Paved(before, {}).cells == before.cells;
  }

  // ----- showing the fluid in the world

  /** The block a position holds once its lava has been looked at. */
  function Shown(block: Option<BlockType>, hasLava: bool): Option<BlockType> {
    match block
    case Some(Air) => Some(if hasLava then BlockType.Lava else Air)
    case Some(Lava) => Some(if hasLava then BlockType.Lava else Air)
    case Some(Water) => Some(if hasLava then Cobblestone else BlockType.Water)
    case _ => block
  }

  predicate LavaAt(cells: map<Pos, L.LavaCell>, p: Pos) {
    p in cells && cells[p].HasLava()
  }

  /** Water is overrun by lava at p. */
  predicate OverrunAt(blocks: Blocks, lava: map<Pos, L.LavaCell>, p: Pos) {
    YInBounds(p.y) && blocks.Get(p) == Some(BlockType.Water) && LavaAt(lava, p)
  }

  function ShownAt(blocks: Blocks, lava: map<Pos, L.LavaCell>, p: Pos): Option<BlockType> {
    if YInBounds(p.y) then Shown(blocks.Get(p), LavaAt(lava, p)) else blocks.Get(p)
  }

  /** One changed position. */
  method ShowAt(world: World, water: W.WaterGrid, lava: LavaGrid, p: Pos)
    modifies world, water`cells, water`active, water`dirtyPositions, lava`cells, lava`active, lava`dirtyPositions
    ensures Grids(water, lava) == if OverrunAt(old(world.blocks), old(lava.cells), p)
                                  then QuenchedAt(old(Grids(water, lava)), p) else old(Grids(water, lava))
    ensures world.blocks.Get(p) == ShownAt(old(world.blocks), old(lava.cells), p)
    ensures forall q :: q != p ==> world.blocks.Get(q) == old(world.blocks).Get(q)
  {
    if YInBounds(p.y) {
      var hasLava := lava.HasLava(p);
      var block := world.blocks.Get(p);
      if block == Some(Air) && hasLava {
        world.SetBlock(p, BlockType.Lava);
      } else if block == Some(BlockType.Lava) && !hasLava {
        world.SetBlock(p, Air);
      } else if block == Some(BlockType.Water) && hasLava {
        FormCobblestone(world, water, lava, p);
      }
    }
  }

  /** The changed positions where lava ran into water. */
  function Overrun(blocks: Blocks, lava: map<Pos, L.LavaCell>, changed: set<Pos>): set<Pos> {
    set p | p in changed && OverrunAt(blocks, lava, p)
  }

  /** The blocks once the positions in `done` were looked at. */
  ghost predicate ShownFor(before: Blocks, lava: map<Pos, L.LavaCell>, done: set<Pos>, now: Blocks) {
    forall p :: now.Get(p) == if p in done then ShownAt(before, lava, p) else before.Get(p)
  }

  /** The blocks and the grids once the positions in `done` were looked at. */
  ghost predicate ShowingFor(before: Blocks, grids: Fluids, done: set<Pos>, now: Blocks, after: Fluids) {
    ShownFor(before, grids.lava, done, now) && Quenched(grids, Overrun(before, grids.lava, done), after)
  }

  lemma ShowingNext(before: Blocks, grids: Fluids, done: set<Pos>, was: Blocks, f: Fluids, p: Pos, now: Blocks, after: Fluids)
    requires p !in done && ShowingFor(before, grids, done, was, f)
    requires now.Get(p) == ShownAt(was, f.lava, p) && forall q :: q != p ==> now.Get(q) == was.Get(q)
    requires after == if OverrunAt(was, f.lava, p) then QuenchedAt(f, p) else f
    ensures ShowingFor(before, grids, done + {p}, now, after)
  {
    ShownNext(before, grids.lava, done, was, p, now);
    var over := Overrun(before, grids.lava, done);
    if OverrunAt(before, grids.lava, p) {
      QuenchedNext(grids, over, f, p);
      assert Overrun(before, grids.lava, done + {p}) == over + {p};
    } else {
      assert Overrun(before, grids.lava, done + {p}) == over;
    }
  }

  /** Every changed position, in any order. */
  method ShowAll(world: World, water: W.WaterGrid, lava: LavaGrid, changed: set<Pos>)
    modifies world, water`cells, water`active, water`dirtyPositions, lava`cells, lava`active, lava`dirtyPositions
    ensures ShownFor(old(world.blocks), old(lava.cells), changed, world.blocks)
    ensures Quenched(old(Grids(water, lava)), Overrun(old(world.blocks), old(lava.cells), changed), Grids(water, lava))
  {
    var todo := changed;
    ghost var done: set<Pos>, blocks, grids, f := {}, world.blocks, Grids(water, lava), Grids(water, lava);
    QuenchedNone(grids);
    assert Overrun(blocks, grids.lava, {}) == {};
    while todo != {}
      invariant done + todo == changed && done !! todo && f == Grids(water, lava)
      invariant ShowingFor(blocks, grids, done, world.blocks, f)
      decreases todo
    {
      var p :| p in todo;
      ghost var was, before := world.blocks, f;
      ShowAt(world, water, lava, p);
      f := Grids(water, lava);
      ShowingNext(blocks, grids, done, was, before, p, world.blocks, f);
      todo, done := todo - {p}, done + {p};
    }
    assert done == changed;
  }

  lemma ShownNext(before: Blocks, lava: map<Pos, L.LavaCell>, done: set<Pos>, was: Blocks, p: Pos, now: Blocks)
    requires p !in done && ShownFor(before, lava, done, was)
    requires now.Get(p) == ShownAt(was, lava - Overrun(before, lava, done), p) && forall q :: q != p ==> now.Get(q) == was.Get(q)
    ensures OverrunAt(was, lava - Overrun(before, lava, done), p) == OverrunAt(before, lava, p)
    ensures ShownFor(before, lava, done + {p}, now)
    ensures Overrun(before, lava, done + {p}) == Overrun(before, lava, done) + (if OverrunAt(before, lava, p) then {p} else {})
  {}

  // ----- the whole call

  /** Positions where a lava block was placed that the grid does not know yet. */
  function Unsynced(blocks: Blocks, lava: map<Pos, L.LavaCell>, dirty: set<Pos>): set<Pos> {
    set p | p in dirty && YInBounds(p.y) && p !in lava && blocks.Get(p) == Some(BlockType.Lava)
  }

  /** Full cells for the unsynced positions. */
  function Synced(blocks: Blocks, lava: map<Pos, L.LavaCell>, dirty: set<Pos>): map<Pos, L.LavaCell> {
    lava + (map p | p in Unsynced(blocks, lava, dirty) :: L.LavaCell(L.MAX_MASS, false, 0))
  }

  method SyncDirty(world: World, lava: LavaGrid)
    modifies lava`cells, lava`active
    ensures lava.cells == Synced(world.blocks, old(lava.cells), lava.dirtyPositions)
    ensures lava.active == old(lava.active) + Unsynced(world.blocks, old(lava.cells), lava.dirtyPositions)
  {
    var todo := lava.dirtyPositions;
    ghost var before, dirty := lava.cells, lava.dirtyPositions;
    while todo != {}
      invariant todo <= dirty
      invariant lava.cells == Synced(world.blocks, before, dirty - todo)
      invariant lava.active == old(lava.active) + Unsynced(world.blocks, before, dirty - todo)
      decreases todo
    {
      var p :| p in todo;
      SyncedNext(world.blocks, before, dirty - todo, p);
      assert dirty - (todo - {p}) == (dirty - todo) + {p};
      if YInBounds(p.y) && p !in lava.cells && world.blocks.Get(p) == Some(BlockType.Lava) {
        lava.cells := lava.cells[p := L.LavaCell(L.MAX_MASS, false, 0)];
        lava.active := lava.active + {p};
      }
      todo := todo - {p};
    }
    assert dirty - todo == dirty;
  }

  lemma SyncedNext(blocks: Blocks, before: map<Pos, L.LavaCell>, done: set<Pos>, p: Pos)
    requires p !in done
    ensures p in Synced(blocks, before, done) <==> p in before
    ensures var unknown := YInBounds(p.y) && p !in before && blocks.Get(p) == Some(BlockType.Lava);
            && Unsynced(blocks, before, done + {p}) == Unsynced(blocks, before, done) + (if unknown then {p} else {})
            && Synced(blocks, before, done + {p})
               == if unknown then Synced(blocks, before, done)[p := L.LavaCell(L.MAX_MASS, false, 0)] else Synced(blocks, before, done)
  {}

  /** What a block says about lava agrees with the grid. */
  ghost predicate AgreesAt(blocks: Blocks, lava: map<Pos, L.LavaCell>, p: Pos) {
    var b := blocks.Get(p);
    b == Some(Air) || b == Some(BlockType.Lava) || b == Some(BlockType.Water) ==>
      (b == Some(BlockType.Lava) <==> LavaAt(lava, p))
  }

  /** What a call's reactions do at one position, against the lava left. */
  ghost predicate ReactedAt(before: Blocks, formed: set<Pos>, changed: set<Pos>, now: Blocks, lava: map<Pos, L.LavaCell>, p: Pos) {
    && (p in formed ==> now.Get(p) == Some(Cobblestone) && p !in lava)
    && (p in changed && YInBounds(p.y) ==> AgreesAt(now, lava, p))
    && (p !in changed && p !in formed && before.Get(p).Some? ==> now.Get(p) == before.Get(p))
  }

  /** The blocks after a call's reactions against the lava left, at every position. */
  ghost predicate Reacted(before: Blocks, formed: set<Pos>, changed: set<Pos>, now: Blocks, lava: map<Pos, L.LavaCell>) {
    forall p :: ReactedAt(before, formed, changed, now, lava, p)
  }

  /** The positions of one call that turn to cobblestone: contacts, then where lava runs into water. */
  function Formed(before: Blocks, lava: map<Pos, L.LavaCell>, contacts: set<Pos>, changed: set<Pos>): set<Pos> {
    contacts + Overrun(Paved(before, contacts), lava - contacts, changed)
  }

  lemma ReactionAgrees(before: Blocks, lava: map<Pos, L.LavaCell>, contacts: set<Pos>, changed: set<Pos>, now: Blocks)
    requires ShownFor(Paved(before, contacts), lava - contacts, changed, now)
    ensures var formed := Formed(before, lava, contacts, changed);
            Reacted(before, formed, changed, now, lava - formed)
  {
    forall p {
      PositionAgrees(before, lava, contacts, changed, now, p);
    }
  }

  lemma ShownAgrees(before: Blocks, lava: map<Pos, L.LavaCell>, changed: set<Pos>, now: Blocks, p: Pos)
    requires ShownFor(before, lava, changed, now)
    ensures p in Overrun(before, lava, changed) ==> now.Get(p) == Some(Cobblestone)
    ensures before.Get(p) == Some(Cobblestone) ==> now.Get(p) == Some(Cobblestone) && p !in Overrun(before, lava, changed)
    ensures p in changed && YInBounds(p.y) && p !in Overrun(before, lava, changed) ==> AgreesAt(now, lava, p)
    ensures p !in changed ==> now.Get(p) == before.Get(p)
  {
    assert now.Get(p) == if p in changed then ShownAt(before, lava, p) else before.Get(p);
  }

  lemma PositionAgrees(before: Blocks, lava: map<Pos, L.LavaCell>, contacts: set<Pos>, changed: set<Pos>, now: Blocks, p: Pos)
    requires ShownFor(Paved(before, contacts), lava - contacts, changed, now)
    ensures var formed := Formed(before, lava, contacts, changed);
            ReactedAt(before, formed, changed, now, lava - formed, p)
  {
    PavedAt(before, contacts, p);
    ShownAgrees(Paved(before, contacts), lava - contacts, changed, now, p);
    var over := Overrun(Paved(before, contacts), lava - contacts, changed);
    assert LavaAt(lava - (contacts + over), p) <==> p !in over && LavaAt(lava - contacts, p);
  }

  /** The reactions of one call: where lava touched water, then where it ran into water. */
  method React(world: World, water: W.WaterGrid, lava: LavaGrid, contacts: set<Pos>, changed: set<Pos>)
    returns (ghost formed: set<Pos>)
    requires water.Valid() && lava.Valid()
    modifies world, water`cells, water`active, water`dirtyPositions, lava`cells, lava`active, lava`dirtyPositions
    ensures ShownFor(Paved(old(world.blocks), contacts), old(lava.cells) - contacts, changed, world.blocks)
    ensures water.Valid() && lava.Valid()
    ensures formed == Formed(old(world.blocks), old(lava.cells), contacts, changed)
    ensures Quenched(old(Grids(water, lava)), formed, Grids(water, lava))
    ensures Reacted(old(world.blocks), formed, changed, world.blocks, lava.cells)
  {
    formed := Formed(world.blocks, lava.cells, contacts, changed);
    FormAll(world, water, lava, contacts);
    ghost var over, f := Overrun(world.blocks, lava.cells, changed), Grids(water, lava);
    ShowAll(world, water, lava, changed);
    assert unchanged(water`pendingChanges, water`pendingTypes, lava`pendingChanges);
    QuenchedThen(old(Grids(water, lava)), contacts, f, over, Grids(water, lava));
    ReactionAgrees(old(world.blocks), old(lava.cells), contacts, changed, world.blocks);
  }

  // ----- the tick of a call

  /** What a tick starts with: placed lava blocks have become full cells. */
  function StartCells(blocks: Blocks, f: Fluids): map<Pos, L.LavaCell> {
    Synced(blocks, f.lava, f.hotDirty)
  }

  /** The cells a tick may process. */
  function MayProcess(blocks: Blocks, f: Fluids, player: Vec, radius: real): set<Pos> {
    Candidates(StartCells(blocks, f), f.hotActive + Unsynced(blocks, f.lava, f.hotDirty), f.hotDirty, player, radius)
  }

  /** `log` holds the transfers of a tick that processes `order`; what it reports and leaves follows from them. */
  ghost predicate Explains(log: seq<Transfer>, blocks: Blocks, f: Fluids, player: Vec, radius: real, budget: nat,
                           order: seq<Pos>, changed: set<Pos>, contacts: set<Pos>, ticked: Fluids)
  {
    var start, candidates, env := StartCells(blocks, f), MayProcess(blocks, f, player, radius), LavaEnv(blocks);
    && IsProcessingOrder(order, candidates, budget) && log == L.TickLog(L.Masses(start), order, env)
    && changed == Mentioned(log) && contacts == Contacts(start, WaterTest(blocks, Wet(f.water)), Elements(order))
    && ticked.lava == L.Apply(start, L.Op.Tick(order, env))
    && ticked.hotActive == ActiveAfterTick(candidates, start, ticked.lava, order, log) && ticked.hotDirty == NeighborsOf(Froms(log))
    && ticked.water == f.water && ticked.wetActive == f.wetActive && ticked.wetDirty == f.wetDirty
  }

  /** A tick of the lava grid on these blocks, over a proper processing order: the grids before the reactions. */
  ghost predicate IsTick(blocks: Blocks, f: Fluids, player: Vec, radius: real, budget: nat,
                         order: seq<Pos>, changed: set<Pos>, contacts: set<Pos>, ticked: Fluids)
  {
    exists log :: Explains(log, blocks, f, player, radius, budget, order, changed, contacts, ticked)
  }

  /** The mass accounting and the mass bound hold for the tick of every call. */
  lemma TickAccounts(blocks: Blocks, f: Fluids, player: Vec, radius: real, budget: nat,
                     order: seq<Pos>, changed: set<Pos>, contacts: set<Pos>, ticked: Fluids) returns (log: seq<Transfer>)
    requires IsTick(blocks, f, player, radius, budget, order, changed, contacts, ticked) && L.NonNegative(L.Masses(f.lava))
    ensures Explains(log, blocks, f, player, radius, budget, order, changed, contacts, ticked)
    ensures var start := StartCells(blocks, f);
            Total(L.NonSource(ticked.lava))
            == Total(L.NonSource(start)) + DebitedFrom(log, L.Sources(start)) - CreditedTo(log, L.Sources(start))
               - Lost(log) - Total(L.Dust(start, log))
    ensures L.Bounded(L.Masses(f.lava)) ==> L.Bounded(L.Masses(ticked.lava))
  {
    log :| Explains(log, blocks, f, player, radius, budget, order, changed, contacts, ticked);
    SyncedMasses(blocks, f);
    L.AppliedTickAccounts(StartCells(blocks, f), order, LavaEnv(blocks));
  }

  lemma SyncedMasses(blocks: Blocks, f: Fluids)
    ensures L.NonNegative(L.Masses(f.lava)) ==> L.NonNegative(L.Masses(StartCells(blocks, f)))
    ensures L.Bounded(L.Masses(f.lava)) ==> L.Bounded(L.Masses(StartCells(blocks, f)))
  {
    forall p | p in StartCells(blocks, f)
      ensures L.Masses(StartCells(blocks, f))[p] == if p in f.lava then L.Masses(f.lava)[p] else L.MAX_MASS
    {}
  }

  method SyncAndTick(world: World, water: W.WaterGrid, lava: LavaGrid, playerPos: Vec)
    returns (changed: set<Pos>, contacts: set<Pos>, ghost order: seq<Pos>)
    requires water.Valid() && lava.Valid()
    modifies lava, lava.yBuckets
    ensures lava.Valid() && water.Valid()
    ensures IsTick(world.blocks, old(Grids(water, lava)), playerPos, old(lava.simulationRadius), old(lava.maxUpdatesPerFrame),
                   order, changed, contacts, Grids(water, lava))
  {
    SyncDirty(world, lava);
    ghost var log;
    changed, contacts, order, log := lava.Tick(LavaEnv(world.blocks), WaterTest(world.blocks, Wet(water.cells)), playerPos);
    assert Explains(log, world.blocks, old(Grids(water, lava)), playerPos, old(lava.simulationRadius), old(lava.maxUpdatesPerFrame),
                    order, changed, contacts, Grids(water, lava));
  }

  /** The reactions to a tick that left these grids, with these contacts and changes. */
  ghost predicate IsAnswered(before: Blocks, ticked: Fluids, contacts: set<Pos>, changed: set<Pos>, formed: set<Pos>,
                             now: Blocks, after: Fluids)
  {
    && formed == Formed(before, ticked.lava, contacts, changed) && Quenched(ticked, formed, after)
    && ShownFor(Paved(before, contacts), ticked.lava - contacts, changed, now)
    && Reacted(before, formed, changed, now, after.lava)
  }

  /**
   One call of the lava simulation, tick included. `order` is the order in which its tick processed the
   active cells. `formed` are the positions turned to cobblestone: every contact of lava with water, and
   every changed position where lava ran into water; no fluid is left there in either grid. At every other
   changed position the world shows lava exactly where the grid has it.
   */
  method ProcessSimulation(world: World, water: W.WaterGrid, lava: LavaGrid, playerPos: Vec)
    returns (changed: set<Pos>, ghost contacts: set<Pos>, ghost formed: set<Pos>, ghost order: seq<Pos>, ghost ticked: Fluids)
    requires water.Valid() && lava.Valid()
    modifies world, water`cells, water`active, water`dirtyPositions, lava, lava.yBuckets
    ensures water.Valid() && lava.Valid()
    ensures IsTick(old(world.blocks), old(Grids(water, lava)), playerPos, old(lava.simulationRadius), old(lava.maxUpdatesPerFrame),
                   order, changed, contacts, ticked)
    ensures IsAnswered(old(world.blocks), ticked, contacts, changed, formed, world.blocks, Grids(water, lava))
  {
    var touching;
    changed, touching, order := SyncAndTick(world, water, lava, playerPos);
    contacts, ticked := touching, Grids(water, lava);
    formed := React(world, water, lava, touching, changed);
  }
}
