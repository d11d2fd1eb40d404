/** What one call of the lava simulation does to the blocks, said of positions and blocks alone. */
module LavaCallLaws {
  import opened Geometry
  import opened BlockTypes
  import opened Distances
  import opened Ledger
  import opened Fluid
  import opened FluidTick
  import opened FluidLaws
  import opened Worlds
  import opened LavaGrids
  import opened FluidWorlds
  import L = Lava
  import Laws = LavaLaws
  import WaterCells = Water

  /** Lava at p when the call begins: a cell with more than a trace, or a lava block that was marked and has no cell. */
  ghost predicate Hot(blocks: Blocks, f: Fluids, p: Pos) {
    if p in f.lava then f.lava[p].mass > L.MIN_MASS
    else p in f.hotDirty && YInBounds(p.y) && blocks.Get(p) == Some(BlockType.Lava)
  }

  predicate WetAt(blocks: Blocks, f: Fluids, p: Pos) {
    blocks.Get(p) == Some(BlockType.Water) || (p in f.water && f.water[p].mass > WaterCells.MIN_MASS)
  }

  /** Water at p or at one of its six neighbours. */
  predicate BesideWater(blocks: Blocks, f: Fluids, p: Pos) {
    || WetAt(blocks, f, p)
    || WetAt(blocks, f, Pos(p.x + 1, p.y, p.z)) || WetAt(blocks, f, Pos(p.x - 1, p.y, p.z))
    || WetAt(blocks, f, Pos(p.x, p.y + 1, p.z)) || WetAt(blocks, f, Pos(p.x, p.y - 1, p.z))
    || WetAt(blocks, f, Pos(p.x, p.y, p.z + 1)) || WetAt(blocks, f, Pos(p.x, p.y, p.z - 1))
  }

  // ----- what the tick sees and starts with

  /** Open to lava: a loaded position in range with air, a fluid, or a block that is not solid. */
  predicate OpenToLava(blocks: Blocks, p: Pos) {
    && YInBounds(p.y) && blocks.Get(p).Some?
    && blocks.Get(p).value in {Air, BlockType.Water, BlockType.Lava, BlockType.Model, Glass, TintedGlass, Ice}
  }

  /** The world of a tick, block by block: everything below the world is void, and a lava block counts as full. */
  lemma WorldIsSeen(blocks: Blocks, base: map<Pos, real>, p: Pos, m: real)
    ensures LavaEnv(blocks).isSolid(p) <==> !OpenToLava(blocks, p)
    ensures LavaEnv(blocks).isOutOfBounds(p) <==> p.y < 0
    ensures p !in base ==>
              (SeesAt(base, [], p, false, LavaEnv(blocks), 1.0, m)
               <==> m == if YInBounds(p.y) && blocks.Get(p) == Some(BlockType.Lava) then 1.0 else 0.0)
  {}

  /** A marked lava block without a cell gets a full one; every other position keeps what it has. */
  lemma PlacedLavaIsACell(blocks: Blocks, f: Fluids, p: Pos)
    ensures Get(StartCells(blocks, f), p)
            == if p in f.lava then Some(f.lava[p])
               else if Hot(blocks, f, p) then Some(L.LavaCell(1.0, false, 0)) else None
  {}

  /** The tick may process what is active, and what is hot and marked, within the radius around the player. */
  lemma MayProcessIff(blocks: Blocks, f: Fluids, player: Vec, radius: real, p: Pos)
    ensures p in MayProcess(blocks, f, player, radius)
            <==> (p in f.hotActive || (p in f.hotDirty && Hot(blocks, f, p))) && DistanceSq(p, player) <= radius * radius
  {
    PlacedLavaIsACell(blocks, f, p);
  }

  // ----- lava beside water

  lemma BesideWaterIff(blocks: Blocks, f: Fluids, p: Pos)
    ensures var hasWater := WaterTest(blocks, Wet(f.water));
            BesideWater(blocks, f, p) <==> hasWater(p) || exists d :: d in ORTHO_DIRS && hasWater(p.Plus(d))
  {
    var hasWater := WaterTest(blocks, Wet(f.water));
    assert forall q :: hasWater(q) <==> WetAt(blocks, f, q);
    var around := [p.Plus(ORTHO_DIRS[0]), p.Plus(ORTHO_DIRS[1]), p.Plus(ORTHO_DIRS[2]), p.Plus(ORTHO_DIRS[3]),
                   p.Plus(ORTHO_DIRS[4]), p.Plus(ORTHO_DIRS[5])];
    assert around == [Pos(p.x + 1, p.y, p.z), Pos(p.x - 1, p.y, p.z), Pos(p.x, p.y + 1, p.z), Pos(p.x, p.y - 1, p.z),
                      Pos(p.x, p.y, p.z + 1), Pos(p.x, p.y, p.z - 1)];
    forall k | 0 <= k < 6 && hasWater(around[k])
      ensures exists d :: d in ORTHO_DIRS && hasWater(p.Plus(d))
    {
      assert ORTHO_DIRS[k] in ORTHO_DIRS && around[k] == p.Plus(ORTHO_DIRS[k]);
    }
  }

  /** The contacts of a tick are exactly the processed positions with lava beside water. */
  lemma ContactIff(blocks: Blocks, f: Fluids, player: Vec, radius: real, budget: nat,
                   order: seq<Pos>, changed: set<Pos>, contacts: set<Pos>, ticked: Fluids, p: Pos)
    requires IsTick(blocks, f, player, radius, budget, order, changed, contacts, ticked)
    ensures p in contacts <==> p in order && Hot(blocks, f, p) && BesideWater(blocks, f, p)
  {
    PlacedLavaIsACell(blocks, f, p);
    BesideWaterIff(blocks, f, p);
  }

  /** Lava beside water that is processed turns to cobblestone in the same call, and neither fluid is left there. */
  lemma LavaBesideWaterHardens(blocks: Blocks, f: Fluids, player: Vec, radius: real, budget: nat,
                               order: seq<Pos>, changed: set<Pos>, contacts: set<Pos>, ticked: Fluids,
                               formed: set<Pos>, now: Blocks, after: Fluids, p: Pos)
    requires IsTick(blocks, f, player, radius, budget, order, changed, contacts, ticked)
    requires IsAnswered(blocks, ticked, contacts, changed, formed, now, after)
    requires p in order && Hot(blocks, f, p) && BesideWater(blocks, f, p)
    ensures now.Get(p) == Some(Cobblestone) && p !in after.lava && p !in after.water
  {
    ContactIff(blocks, f, player, radius, budget, order, changed, contacts, ticked, p);
    assert p in formed && ReactedAt(blocks, formed, changed, now, after.lava, p);
  }

  // ----- lava above air or water

  lemma BelowIsFree(blocks: Blocks, f: Fluids, q: Pos)
    requires q !in f.lava && YInBounds(q.y) && (blocks.Get(q) == Some(Air) || blocks.Get(q) == Some(BlockType.Water))
    ensures Free(StartCells(blocks, f), LavaEnv(blocks), q)
  {
    PlacedLavaIsACell(blocks, f, q);
  }

  /** A processed cell above air or water leaves lava below, and the position is reported as changed. */
  lemma PouredBelow(blocks: Blocks, f: Fluids, player: Vec, radius: real, budget: nat,
                    order: seq<Pos>, changed: set<Pos>, contacts: set<Pos>, ticked: Fluids, p: Pos, q: Pos)
    requires IsTick(blocks, f, player, radius, budget, order, changed, contacts, ticked)
    requires p in order && Hot(blocks, f, p) && (p in f.lava ==> f.lava[p].mass > 4.0 * L.MIN_FLOW)
    requires q == Pos(p.x, p.y - 1, p.z) && Free(StartCells(blocks, f), LavaEnv(blocks), q)
    ensures LavaAt(ticked.lava, q) && q in changed
  {
    var log :| Explains(log, blocks, f, player, radius, budget, order, changed, contacts, ticked);
    PlacedLavaIsACell(blocks, f, p);
    Laws.LavaFalls(StartCells(blocks, f), order, LavaEnv(blocks), p);
    Laws.TickLaw(StartCells(blocks, f), order, LavaEnv(blocks), q);
  }

  /**
   Lava pours: where more than four times the least flow of lava, or a placed lava block, is processed above
   air without lava, the call leaves a lava block there, and above water it leaves cobblestone.
   */
  lemma LavaPours(blocks: Blocks, f: Fluids, player: Vec, radius: real, budget: nat,
                  order: seq<Pos>, changed: set<Pos>, contacts: set<Pos>, ticked: Fluids,
                  formed: set<Pos>, now: Blocks, after: Fluids, p: Pos, q: Pos)
    requires IsTick(blocks, f, player, radius, budget, order, changed, contacts, ticked)
    requires IsAnswered(blocks, ticked, contacts, changed, formed, now, after)
    requires p in order && Hot(blocks, f, p) && (p in f.lava ==> f.lava[p].mass > 4.0 * L.MIN_FLOW)
    requires q == Pos(p.x, p.y - 1, p.z) && q !in f.lava && YInBounds(q.y)
    requires blocks.Get(q) == Some(Air) || blocks.Get(q) == Some(BlockType.Water)
    ensures now.Get(q) == Some(if blocks.Get(q) == Some(Air) then BlockType.Lava else Cobblestone)
    ensures LavaAt(after.lava, q) <==> blocks.Get(q) == Some(Air)
  {
    BelowIsFree(blocks, f, q);
    PouredBelow(blocks, f, player, radius, budget, order, changed, contacts, ticked, p, q);
    ContactIff(blocks, f, player, radius, budget, order, changed, contacts, ticked, q);
    PavedAt(blocks, contacts, q);
    PouredShows(blocks, ticked, contacts, changed, formed, now, after, q);
  }

  lemma PouredShows(blocks: Blocks, ticked: Fluids, contacts: set<Pos>, changed: set<Pos>, formed: set<Pos>,
                    now: Blocks, after: Fluids, q: Pos)
    requires IsAnswered(blocks, ticked, contacts, changed, formed, now, after)
    requires LavaAt(ticked.lava, q) && q in changed && q !in contacts && YInBounds(q.y)
    requires Paved(blocks, contacts).Get(q) == blocks.Get(q)
    requires blocks.Get(q) == Some(Air) || blocks.Get(q) == Some(BlockType.Water)
    ensures now.Get(q) == Some(if blocks.Get(q) == Some(Air) then BlockType.Lava else Cobblestone)
    ensures LavaAt(after.lava, q) <==> blocks.Get(q) == Some(Air)
  {
    assert LavaAt(ticked.lava - contacts, q);
    assert now.Get(q) == ShownAt(Paved(blocks, contacts), ticked.lava - contacts, q);
    assert q in formed <==> blocks.Get(q) == Some(BlockType.Water);
    assert after.lava == ticked.lava - formed;
  }
}
