/** The water grid: the stateful operations, each proved to apply the corresponding operation of module Water. */
module WaterGrids {
  import opened BlockTypes
  import opened Geometry
  import opened Distances
  import opened Ledger
  import opened Fluid
  import opened FluidTick
  import opened Water
  import opened WaterLaws

  const DEFAULT_WATER_UPDATES_PER_FRAME: nat := 1024
  const DEFAULT_SIMULATION_RADIUS: real := 64.0
  const PRUNE_THRESHOLD: nat := 2048

  /** The bookkeeping of a tick besides cells and transfers. */
  datatype Progress = Progress(st: TickState, active: set<Pos>, dirty: set<Pos>, changed: set<Pos>, deactivate: set<Pos>)

  predicate GoneAt(cells: map<Pos, WaterCell>, pos: Pos, f: FlowResult) {
    pos in cells && Evaporated(cells[pos], f.HasFlow()).None?
  }

  /** Still there after processing, but thinner for want of flow. */
  predicate EvaporatingAt(cells: map<Pos, WaterCell>, pos: Pos, f: FlowResult) {
    pos in cells && !f.HasFlow() && IsEvaporating(AgedOnce(cells[pos]))
  }

  function AgedOnce(c: WaterCell): WaterCell {
    c.(stableTicks := if c.stableTicks < MAX_TICKS then c.stableTicks + 1 else MAX_TICKS)
  }

  predicate StalledAt(cells: map<Pos, WaterCell>, pos: Pos, f: FlowResult) {
    pos in cells && !f.HasFlow() && AgedOnce(cells[pos]).stableTicks >= STABLE_AFTER && !IsEvaporating(AgedOnce(cells[pos]))
  }

  function If(b: bool, pos: Pos): set<Pos> {
    if b then {pos} else {}
  }

  ghost function NextProgress(p: Progress, pos: Pos, env: Env): Progress {
    var cells := p.st.cells;
    var f := FlowAfter(cells, p.st.log, pos, env);
    Progress(
      NextState(p.st, pos, env),
      p.active - If(GoneAt(cells, pos, f), pos),
      p.dirty + (if f.HasFlow() && !GoneAt(cells, pos, f) then NeighborsOf({pos}) else {}),
      p.changed + Mentioned(CellLog(pos, f, env.isOutOfBounds(pos.Plus(BELOW))))
        + If(GoneAt(cells, pos, f) || EvaporatingAt(cells, pos, f), pos),
      p.deactivate + If(StalledAt(cells, pos, f), pos))
  }

  ghost function ProgressAfter(cells: map<Pos, WaterCell>, active: set<Pos>, order: seq<Pos>, env: Env): (p: Progress)
    ensures p.st == StateAfter(cells, order, env)
  {
    if order == [] then Progress(TickState(cells, [], map[]), active, {}, {}, {}) else
      NextProgress(ProgressAfter(cells, active, order[..|order| - 1], env), order[|order| - 1], env)
  }

  /** Positions woken by the dirty set. */
  function Woken(cells: map<Pos, WaterCell>, dirty: set<Pos>): set<Pos> {
    set p | p in dirty && p in cells && cells[p].HasWater()
  }

  /** The active set a tick starts with: pruned to the radius only when it has grown large. */
  function StartActive(cells: map<Pos, WaterCell>, active: set<Pos>, dirty: set<Pos>, player: Vec, radius: real): set<Pos> {
    var woken := active + Woken(cells, dirty);
    if |woken| > PRUNE_THRESHOLD then InRange(woken, player, radius * radius) else woken
  }

  /** Only a set of more than 2048 active cells is cut down to the radius. */
  lemma StartIff(cells: map<Pos, WaterCell>, active: set<Pos>, dirty: set<Pos>, player: Vec, radius: real, q: Pos)
    ensures var all := active + set p | p in dirty && p in cells && cells[p].mass > MIN_MASS;
            q in StartActive(cells, active, dirty, player, radius)
            <==> q in all && (|all| <= 2048 || DistanceSq(q, player) <= radius * radius)
  {
    assert Woken(cells, dirty) == set p | p in dirty && p in cells && cells[p].mass > MIN_MASS;
  }

  /** The cells a tick may process: active, or woken with water, within the radius. */
  lemma MayProcessIff(cells: map<Pos, WaterCell>, active: set<Pos>, dirty: set<Pos>, player: Vec, radius: real, q: Pos)
    ensures q in WithinRadius(StartActive(cells, active, dirty, player, radius), player, radius)
            <==> (q in active || (q in dirty && q in cells && cells[q].mass > MIN_MASS)) && DistanceSq(q, player) <= radius * radius
  {}

  class WaterGrid {
    var cells: map<Pos, WaterCell>
    var active: set<Pos>
    var pendingChanges: map<Pos, real>
    var pendingTypes: map<Pos, WaterType>
    var dirtyPositions: set<Pos>
    var maxUpdatesPerFrame: nat
    var simulationRadius: real
    const yBuckets: array<seq<Pos>>

    /** Between calls no delta is pending. */
    ghost predicate Valid()
      reads this
    {
      pendingChanges == map[] && pendingTypes == map[] && yBuckets.Length == Y_BUCKET_COUNT
    }

    constructor ()
      ensures Valid() && fresh(yBuckets)
      ensures cells == map[] && active == {} && dirtyPositions == {}
    {
      cells, active, pendingChanges, pendingTypes, dirtyPositions := map[], {}, map[], map[], {};
      maxUpdatesPerFrame, simulationRadius := DEFAULT_WATER_UPDATES_PER_FRAME, DEFAULT_SIMULATION_RADIUS;
      yBuckets := new seq<Pos>[Y_BUCKET_COUNT](_ => []);
    }

    predicate HasWater(pos: Pos)
      reads this
    {
      pos in cells && cells[pos].HasWater()
    }

    method SetWater(pos: Pos, mass: real, isSource: bool, waterType: WaterType)
      requires Valid()
      modifies this`cells, this`active
      ensures cells == Apply(old(cells), Op.Set(pos, mass, isSource, waterType))
      ensures pos in cells <==> mass > MIN_MASS || isSource
      ensures pos in cells ==> cells[pos] == WaterCell(if isSource then MAX_MASS else mass, isSource, 0, waterType)
      ensures cells - {pos} == old(cells) - {pos}
      ensures active == if pos in cells then old(active) + {pos} else old(active) - {pos}
    {
      if mass <= MIN_MASS && !isSource {
        cells := cells - {pos};
        active := active - {pos};
      } else {
        cells := cells[pos := WaterCell(if isSource then MAX_MASS else mass, isSource, 0, waterType)];
        active := active + {pos};
      }
    }

    method AddWater(pos: Pos, amount: real, waterType: WaterType)
      requires Valid()
      modifies this`cells, this`active
      ensures cells == Apply(old(cells), Add(pos, amount, waterType))
      ensures amount <= 0.0 ==> cells == old(cells)
      ensures amount > 0.0 ==> pos in cells && Val(Masses(cells), pos) == Val(Masses(old(cells)), pos) + amount
                               && cells[pos].waterType == if Val(Masses(old(cells)), pos) <= 0.0 then waterType
                                                          else old(cells)[pos].waterType
      ensures cells - {pos} == old(cells) - {pos} && Sources(cells) == Sources(old(cells))
      ensures active == if amount <= 0.0 then old(active) else old(active) + {pos}
    {
      if amount <= 0.0 {
        return;
      }
      var cell := if pos in cells then cells[pos] else WaterCell(0.0, false, 0, Ocean);
      cell := cell.(mass := cell.mass + amount, stableTicks := 0);
      if cell.mass <= amount {
        cell := cell.(waterType := waterType);
      }
      cells := cells[pos := cell];
      active := active + {pos};
    }

    /** Returns what was really taken: never more than the cell had, nothing from a source. */
    method RemoveWater(pos: Pos, amount: real) returns (removed: real)
      requires Valid()
      modifies this`cells, this`active
      ensures cells == Apply(old(cells), Remove(pos, amount))
      ensures removed == if pos !in old(cells) || old(cells)[pos].isSource then 0.0
                         else if amount <= old(cells)[pos].mass then amount else old(cells)[pos].mass
      ensures if pos in cells then Val(Masses(cells), pos) == Val(Masses(old(cells)), pos) - removed
                                   && cells[pos].waterType == TypeAt(old(cells), pos)
              else pos in old(cells) ==> old(cells)[pos].mass - removed <= MIN_MASS
      ensures pos in cells && pos !in Sources(cells) ==> cells[pos].mass > MIN_MASS
      ensures cells - {pos} == old(cells) - {pos} && Sources(cells) == Sources(old(cells))
      ensures active == if pos !in old(cells) || old(cells)[pos].isSource then old(active)
                        else if pos in cells then old(active) + {pos} else old(active) - {pos}
    {
      if pos !in cells || cells[pos].isSource {
        return 0.0;
      }
      var cell := cells[pos];
      removed := Min(amount, cell.mass);
      cells := cells[pos := cell.(mass := cell.mass - removed, stableTicks := 0)];
      active := active + {pos};
      if cells[pos].mass <= MIN_MASS {
        cells := cells - {pos};
        active := active - {pos};
        assert cells == old(cells) - {pos};
      }
    }

    method RemoveSource(pos: Pos)
      requires Valid()
      modifies this`cells, this`active
      ensures cells == Apply(old(cells), Op.RemoveSource(pos))
      ensures Masses(cells) == Masses(old(cells)) && Sources(cells) == Sources(old(cells)) - {pos}
      ensures forall q :: q in cells ==> cells[q].waterType == old(cells)[q].waterType
      ensures active == if pos in cells then old(active) + {pos} else old(active)
    {
      if pos in cells {
        cells := cells[pos := cells[pos].(isSource := false, stableTicks := 0)];
        active := active + {pos};
      }
    }

    method ActivateNeighbors(pos: Pos)
      modifies this`dirtyPositions
      ensures dirtyPositions == DirtyAfter(old(dirtyPositions), pos)
    {
      if pos !in dirtyPositions {
        dirtyPositions := dirtyPositions + {pos} + NeighborsOf({pos});
      }
    }

    /** A solid block now occupies pos. */
    method OnBlockPlaced(pos: Pos)
      modifies this`cells, this`active, this`dirtyPositions
      ensures cells == Apply(old(cells), BlockPlaced(pos)) == old(cells) - {pos} && active == old(active) - {pos}
      ensures dirtyPositions == DirtyAfter(old(dirtyPositions), pos)
    {
      cells := cells - {pos};
      active := active - {pos};
      ActivateNeighbors(pos);
    }

    // ----- flow

    /** The flow algorithm, step by step over `remaining`. */
    method CalculateFlowCached(pos: Pos, n: NeighborMasses) returns (result: FlowResult)
      ensures result == FlowOf(Val(Masses(cells), pos), TypeAt(cells, pos), n)
      ensures IsFlow(Val(Masses(cells), pos), TypeAt(cells, pos), n, result)
    {
      result := FlowSteps(pos, n);
      FlowIsFlow(Val(Masses(cells), pos), TypeAt(cells, pos), n, result);
    }

    method FlowSteps(pos: Pos, n: NeighborMasses) returns (result: FlowResult)
      ensures result == FlowOf(Val(Masses(cells), pos), TypeAt(cells, pos), n)
    {
      result := NO_FLOW;
      if pos !in cells || !cells[pos].HasWater() {
        return;
      }
      var remaining := cells[pos].mass;
      if n.belowVoid {
        result := result.(down := remaining);
        remaining := 0.0;
      } else if !n.belowSolid {
        var spaceBelow := MAX_MASS + MAX_COMPRESS - n.below;
        if spaceBelow > MIN_MASS {
          var flow := if n.below < MIN_MASS then Min(remaining, spaceBelow) else Min(remaining, spaceBelow) * FLOW_DAMPING;
          if flow > MIN_MASS {
            result := result.(down := flow);
            remaining := remaining - flow;
          }
        }
      }
      var flows;
      flows, remaining := FlowSideways(Sides(n), remaining, cells[pos].waterType, n);
      result := result.(posX := flows[0], negX := flows[1], posZ := flows[2], negZ := flows[3]);
      if !n.aboveSolid && remaining > MAX_MASS {
        var spaceAbove := MAX_MASS - n.above;
        if spaceAbove > MIN_FLOW {
          var flow := Min(remaining - MAX_MASS, spaceAbove) * FLOW_DAMPING;
          if flow > MIN_FLOW {
            result := result.(up := flow);
          }
        }
      }
    }

    /** The horizontal pass: average over the lower neighbours, then a damped flow to each below it. */
    static method FlowSideways(sides: seq<Side>, start: real, t: WaterType, ghost n: NeighborMasses)
      returns (flows: seq<real>, remaining: real)
      requires sides == Sides(n)
      ensures flows == SideFlowsOf(start, n, t) && remaining == start - Sum(flows)
    {
      flows, remaining := [0.0, 0.0, 0.0, 0.0], start;
      SumOfFour(flows);
      if start > MIN_FLOW {
        var totalMass, lowerCount := start, 0;
        for i := 0 to |sides|
          invariant totalMass == start + LowerMass(sides[..i], start)
          invariant lowerCount == LowerCount(sides[..i], start)
        {
          assert sides[..i + 1][..i] == sides[..i];
          if sides[i].open && sides[i].mass < start {
            totalMass := totalMass + sides[i].mass;
            lowerCount := lowerCount + 1;
          }
        }
        assert sides[..|sides|] == sides;
        if lowerCount > 0 {
          flows, remaining := SpreadSideways(sides, start, totalMass / (1 + lowerCount) as real, FlowRate(t));
        }
      }
    }

    static method FlowToSide(s: Side, remaining: real, average: real, rate: real) returns (flow: real)
      ensures flow == SideFlow(s, remaining, average, rate)
    {
      flow := 0.0;
      if s.open && s.mass < remaining && s.mass < average {
        var wanted := (average - s.mass) * rate;
        if wanted < MIN_FLOW && remaining > MIN_FLOW * 2.0 {
          wanted := MIN_FLOW;
        }
        if wanted >= MIN_FLOW && remaining > wanted {
          flow := wanted;
        }
      }
    }

    static method SpreadSideways(sides: seq<Side>, start: real, average: real, rate: real) returns (flows: seq<real>, remaining: real)
      ensures flows == SideFlows(sides, start, average, rate) && remaining == start - Sum(flows)
    {
      flows, remaining := [], start;
      for i := 0 to |sides|
        invariant Spreading(sides, i, start, average, rate, flows, remaining)
      {
        var flow := FlowToSide(sides[i], remaining, average, rate);
        SpreadNext(sides, i, start, average, rate, flows, remaining);
        flows := flows + [flow];
        remaining := remaining - flow;
      }
    }

    // ----- settling

    /** One pending delta with its type. */
    method ApplyOne(p: Pos, delta: real, waterType: WaterType)
      modifies this`cells, this`active
      ensures Get(cells, p) == Settle(Get(old(cells), p), delta, waterType)
      ensures IsDrained(Get(old(cells), p), Some(delta), Some(waterType), Get(cells, p))
      ensures forall q :: q != p ==> Get(cells, q) == Get(old(cells), q)
      ensures active == if p in cells then old(active) + {p} else if p in old(cells) then old(active) - {p} else old(active)
    {
      if p in cells {
        var cell := cells[p];
        if !cell.isSource {
          var mass := Max(cell.mass + delta, 0.0);
          if mass <= MIN_MASS {
            cells := cells - {p};
            active := active - {p};
            return;
          }
          cell := cell.(mass := mass, stableTicks := 0);
          if delta > 0.0 && delta > mass * 0.5 {
            cell := cell.(waterType := waterType);
          }
          cells := cells[p := cell];
        }
        active := active + {p};
      } else if delta > MIN_MASS {
        cells := cells[p := WaterCell(delta, false, 0, waterType)];
        active := active + {p};
      }
    }

    /** Drains the pending deltas, in any order. */
    method ApplyPendingChanges()
      requires pendingChanges.Keys == pendingTypes.Keys
      modifies this`cells, this`active, this`pendingChanges, this`pendingTypes
      ensures pendingChanges == map[] && pendingTypes == map[]
      ensures cells == Settled(old(cells), old(pendingChanges), old(pendingTypes))
      ensures forall q :: IsDrained(Get(old(cells), q), Get(old(pendingChanges), q), Get(old(pendingTypes), q), Get(cells, q))
      ensures active == ActiveAfter(old(active), old(cells).Keys, cells.Keys, old(pendingChanges).Keys)
    {
      ghost var before, all := cells, pendingChanges;
      var types := pendingTypes;
      while pendingChanges != map[]
        invariant pendingChanges.Keys <= all.Keys && forall p :: p in pendingChanges ==> pendingChanges[p] == all[p]
        invariant forall p :: Get(cells, p) == if p in pendingChanges then Get(before, p) else After(before, all, types, p)
        invariant active == ActiveAfter(old(active), before.Keys, cells.Keys, all.Keys - pendingChanges.Keys)
        decreases pendingChanges
      {
        var p :| p in pendingChanges;
        var delta := pendingChanges[p];
        ghost var done := all.Keys - pendingChanges.Keys;
        pendingChanges := pendingChanges - {p};
        ghost var was := cells;
        assert Get(cells, p) == Get(before, p);
        ApplyOne(p, delta, types[p]);
        assert all.Keys - pendingChanges.Keys == done + {p};
        assert forall q :: q in cells <==> Get(cells, q).Some?;
        assert forall q :: q in was <==> Get(was, q).Some?;
        ActiveNext(old(active), before.Keys, was.Keys, cells.Keys, done, p);
      }
      pendingTypes := map[];
      assert all.Keys - pendingChanges.Keys == all.Keys;
      SettledByPoints(before, all, types, cells);
      forall q {
        DrainedLaw(before, all, types, q);
      }
    }

    // ----- the tick

    /** Credits one flow that is large enough and not lost, and stamps its type. */
    method RecordInflow(t: Transfer, waterType: WaterType, changed: set<Pos>) returns (changed': set<Pos>)
      modifies this`pendingChanges, this`pendingTypes
      ensures pendingChanges == if t.to.Some? then Bump(old(pendingChanges), t.to.value, t.amount) else old(pendingChanges)
      ensures pendingTypes == if t.to.Some? then old(pendingTypes)[t.to.value := waterType] else old(pendingTypes)
      ensures changed' == if t.to.Some? then changed + {t.to.value} else changed
    {
      changed' := changed;
      if t.to.Some? {
        var target := t.to.value;
        pendingChanges := pendingChanges[target := Val(pendingChanges, target) + t.amount];
        pendingTypes := pendingTypes[target := waterType];
        changed' := changed + {target};
      }
    }

    /** Credits every recorded flow of a cell. */
    method CreditAll(flows: seq<Transfer>, waterType: WaterType, changed: set<Pos>) returns (changed': set<Pos>)
      modifies this`pendingChanges, this`pendingTypes
      ensures pendingChanges == Credited(old(pendingChanges), flows)
      ensures pendingTypes == Stamped(old(pendingTypes), flows, waterType)
      ensures changed' == changed + Targets(flows)
    {
      changed' := changed;
      assert flows[..0] == [];
      for i := 0 to |flows|
        invariant pendingChanges == Credited(old(pendingChanges), flows[..i])
        invariant pendingTypes == Stamped(old(pendingTypes), flows[..i], waterType)
        invariant changed' == changed + Targets(flows[..i])
      {
        assert flows[..i + 1][..i] == flows[..i];
        changed' := RecordInflow(flows[i], waterType, changed');
      }
      assert flows[..|flows|] == flows;
    }

    /** Debits the cell by its outflow and credits each neighbour that receives some. */
    method RecordFlow(pos: Pos, all: seq<Transfer>, totalOut: real, waterType: WaterType, changed: set<Pos>, ghost log: seq<Transfer>)
      returns (changed': set<Pos>)
      requires pendingChanges == PendingOf(log) && IsOutflow(all, pos, totalOut)
      modifies this`pendingChanges, this`pendingTypes
      ensures pendingChanges == PendingOf(log + Positive(all))
      ensures pendingTypes == NextTypes(old(pendingTypes), pos, waterType, Positive(all))
      ensures changed' == changed + Mentioned(Positive(all))
    {
      if pos !in pendingTypes {
        pendingTypes := pendingTypes[pos := waterType];
      }
      pendingChanges := Bump(pendingChanges, pos, -totalOut);
      changed' := CreditAll(Positive(all), waterType, changed + {pos});
      OutflowPending(log, pos, all, totalOut);
    }

    /** The flow of one cell, from its cached neighbours. */
    method FlowAt(pos: Pos, env: Env) returns (f: FlowResult)
      ensures f == FlowOf(Val(Masses(cells), pos), TypeAt(cells, pos),
                          CacheNeighborMasses(Masses(cells), pendingChanges, pos, env, MAX_MASS))
      ensures NoNegative(f)
    {
      var n := CacheNeighborMasses(Masses(cells), pendingChanges, pos, env, MAX_MASS);
      f := CalculateFlowCached(pos, n);
      FlowIsSafe(Val(Masses(cells), pos), TypeAt(cells, pos), n);
    }

    /** Pending deltas of one cell's flow. */
    method ApplyFlow(pos: Pos, f: FlowResult, belowVoid: bool, waterType: WaterType, changed: set<Pos>, ghost log: seq<Transfer>)
      returns (changed': set<Pos>)
      requires pendingChanges == PendingOf(log) && NoNegative(f)
      modifies this`pendingChanges, this`pendingTypes
      ensures pendingChanges == PendingOf(log + CellLog(pos, f, belowVoid))
      ensures pendingTypes == NextTypes(old(pendingTypes), pos, waterType, CellLog(pos, f, belowVoid))
      ensures changed' == changed + Mentioned(CellLog(pos, f, belowVoid))
    {
      changed' := changed;
      if f.HasFlow() {
        var all := OutflowOf(pos, f, belowVoid);
        changed' := RecordFlow(pos, all, f.TotalOutflow(), waterType, changed, log);
      } else {
        assert log + CellLog(pos, f, belowVoid) == log;
      }
    }

    static method OutflowOf(pos: Pos, f: FlowResult, belowVoid: bool) returns (all: seq<Transfer>)
      requires f.HasFlow() && NoNegative(f)
      ensures IsOutflow(all, pos, f.TotalOutflow()) && CellLog(pos, f, belowVoid) == Positive(all)
    {
      all := Directions(pos, f, belowVoid);
      DirectionsAreOutflow(pos, f, belowVoid);
    }

    /** Counters and evaporation of one processed cell. */
    method AgeCell(pos: Pos, f: FlowResult) returns (gone: bool)
      modifies this`cells, this`active
      ensures cells == Processed(old(cells), pos, f) && active == old(active) - If(gone, pos)
      ensures gone == GoneAt(old(cells), pos, f)
    {
      gone := false;
      if pos in cells {
        var cell := cells[pos];
        var thins;
        if f.HasFlow() {
          cell := cell.(stableTicks := 0);
          thins := !cell.isSource && cell.mass < VERY_THIN_THRESHOLD;
        } else {
          cell := AgedOnce(cell);
          thins := IsEvaporating(cell);
        }
        if thins {
          cell := cell.(mass := cell.mass - EVAPORATION_RATE);
          gone := cell.mass <= MIN_MASS;
        }
        if gone {
          cells := cells - {pos};
          active := active - {pos};
        } else {
          cells := cells[pos := cell];
        }
      }
    }

    ghost function ProgressOf(log: seq<Transfer>, changed: set<Pos>, deactivate: set<Pos>): Progress
      reads this
    {
      Progress(TickState(cells, log, pendingTypes), active, dirtyPositions, changed, deactivate)
    }

    /** The body of the tick's loop. */
    method TickStep(pos: Pos, env: Env, changed: set<Pos>, deactivate: set<Pos>, ghost log: seq<Transfer>)
      returns (changed': set<Pos>, deactivate': set<Pos>, ghost log': seq<Transfer>)
      requires pendingChanges == PendingOf(log)
      modifies this`pendingChanges, this`pendingTypes, this`cells, this`active, this`dirtyPositions
      ensures pendingChanges == PendingOf(log')
      ensures ProgressOf(log', changed', deactivate') == NextProgress(old(ProgressOf(log, changed, deactivate)), pos, env)
    {
      var f := FlowAt(pos, env);
      changed', deactivate' := FinishCell(pos, f, env.isOutOfBounds(pos.Plus(BELOW)), changed, deactivate, log);
      log' := log + CellLog(pos, f, env.isOutOfBounds(pos.Plus(BELOW)));
    }

    /** The loop body once the flow is known. */
    method FinishCell(pos: Pos, f: FlowResult, belowVoid: bool, changed: set<Pos>, deactivate: set<Pos>, ghost log: seq<Transfer>)
      returns (changed': set<Pos>, deactivate': set<Pos>)
      requires pendingChanges == PendingOf(log) && NoNegative(f)
      modifies this`pendingChanges, this`pendingTypes, this`cells, this`active, this`dirtyPositions
      ensures pendingChanges == PendingOf(log + CellLog(pos, f, belowVoid))
      ensures pendingTypes == NextTypes(old(pendingTypes), pos, TypeAt(old(cells), pos), CellLog(pos, f, belowVoid))
      ensures cells == Processed(old(cells), pos, f) && active == old(active) - If(GoneAt(old(cells), pos, f), pos)
      ensures dirtyPositions == old(dirtyPositions) + (if f.HasFlow() && !GoneAt(old(cells), pos, f) then NeighborsOf({pos}) else {})
      ensures changed' == changed + Mentioned(CellLog(pos, f, belowVoid))
                          + If(GoneAt(old(cells), pos, f) || EvaporatingAt(old(cells), pos, f), pos)
      ensures deactivate' == deactivate + If(StalledAt(old(cells), pos, f), pos)
    {
      changed' := ApplyFlow(pos, f, belowVoid, TypeAt(cells, pos), changed, log);
      deactivate' := deactivate + If(StalledAt(cells, pos, f), pos);
      var evaporating := EvaporatingAt(cells, pos, f);
      var gone := AgeCell(pos, f);
      changed' := changed' + If(gone || evaporating, pos);
      if f.HasFlow() && !gone {
        dirtyPositions := dirtyPositions + NeighborsOf({pos});
      }
    }

    /** Wakes dirty cells; prunes only above the threshold. */
    method WakeAndPrune(playerPos: Vec)
      modifies this`active, this`dirtyPositions
      ensures dirtyPositions == {}
      ensures active == StartActive(cells, old(active), old(dirtyPositions), playerPos, simulationRadius)
    {
      active := active + Woken(cells, dirtyPositions);
      dirtyPositions := {};
      if |active| > PRUNE_THRESHOLD {
        active := InRange(active, playerPos, simulationRadius * simulationRadius);
      }
    }

    /** The loop over the processing order. */
    method ProcessAll(todo: seq<Pos>, env: Env) returns (changed: set<Pos>, deactivate: set<Pos>, ghost log: seq<Transfer>)
      requires pendingChanges == map[] && pendingTypes == map[] && dirtyPositions == {}
      modifies this`pendingChanges, this`pendingTypes, this`cells, this`active, this`dirtyPositions
      ensures pendingChanges == PendingOf(log)
      ensures ProgressOf(log, changed, deactivate) == ProgressAfter(old(cells), old(active), todo, env)
    {
      changed, deactivate, log := {}, {}, [];
      ghost var before, start := cells, active;
      assert todo[..0] == [];
      for i := 0 to |todo|
        invariant pendingChanges == PendingOf(log)
        invariant ProgressOf(log, changed, deactivate) == ProgressAfter(before, start, todo[..i], env)
      {
        ProgressNext(before, start, todo, i, env);
        changed, deactivate, log := TickStep(todo[i], env, changed, deactivate, log);
      }
      assert todo[..|todo|] == todo;
    }

    /** The processing loop, settling, and deactivation of the stalled cells. */
    method ProcessAndSettle(todo: seq<Pos>, env: Env) returns (changed: set<Pos>)
      requires pendingChanges == map[] && pendingTypes == map[] && dirtyPositions == {}
      modifies this`pendingChanges, this`pendingTypes, this`cells, this`active, this`dirtyPositions
      ensures pendingChanges == map[] && pendingTypes == map[]
      ensures TickDone(old(cells), old(active), todo, env, cells, active, dirtyPositions, changed)
    {
      ghost var before, start := cells, active;
      var deactivate; ghost var log;
      changed, deactivate, log := ProcessAll(todo, env);
      ghost var p := ProgressOf(log, changed, deactivate);
      StateTypes(before, todo, env);
      PendingKeys(log);
      ApplyPendingChanges();
      active := active - deactivate;
      TickIsDone(before, start, todo, env, p, cells);
    }

    /** One tick; `order` is the order in which cells were processed. */
    method Tick(env: Env, playerPos: Vec) returns (changed: set<Pos>, ghost order: seq<Pos>)
      requires Valid()
      modifies this`pendingChanges, this`pendingTypes, this`cells, this`active, this`dirtyPositions, yBuckets
      ensures Valid()
      ensures var start := StartActive(old(cells), old(active), old(dirtyPositions), playerPos, simulationRadius);
              && IsProcessingOrder(order, WithinRadius(start, playerPos, simulationRadius), maxUpdatesPerFrame)
              && TickDone(old(cells), start, order, env, cells, active, dirtyPositions, changed)
              && IsActivity(start, old(cells), order, StateAfter(old(cells), order, env).log, cells, active, dirtyPositions, changed)
      ensures IsTick(old(cells), order, env, cells)
    {
      WakeAndPrune(playerPos);
      ghost var start := active;
      var todo := TakeInOrder(active, playerPos, simulationRadius, maxUpdatesPerFrame, yBuckets);
      order := todo;
      changed := ProcessAndSettle(todo, env);
      TickLaw(old(cells), todo, env);
      ActivityLaw(old(cells), start, todo, env, cells, active, dirtyPositions, changed);
    }
  }

  /** What a tick that starts with `start` active and processes `order` leaves behind. */
  ghost predicate TickDone(before: map<Pos, WaterCell>, start: set<Pos>, order: seq<Pos>, env: Env,
                           cells: map<Pos, WaterCell>, active: set<Pos>, dirty: set<Pos>, changed: set<Pos>)
  {
    var p := ProgressAfter(before, start, order, env);
    && cells == AfterTick(before, order, env)
    && active == ActiveAfter(p.active, p.st.cells.Keys, cells.Keys, Mentioned(p.st.log)) - p.deactivate
    && dirty == p.dirty && changed == p.changed
  }

  lemma TickIsDone(before: map<Pos, WaterCell>, start: set<Pos>, order: seq<Pos>, env: Env, p: Progress, cells: map<Pos, WaterCell>)
    requires p == ProgressAfter(before, start, order, env)
    requires Mentioned(p.st.log) <= p.st.types.Keys
    requires cells == Settled(p.st.cells, PendingOf(p.st.log), p.st.types)
    ensures TickDone(before, start, order, env,
              cells, ActiveAfter(p.active, p.st.cells.Keys, cells.Keys, Mentioned(p.st.log)) - p.deactivate, p.dirty, p.changed)
  {}

  // ----- the bookkeeping, position by position

  ghost function GoneOf(cells: map<Pos, WaterCell>, done: set<Pos>, flowed: set<Pos>): set<Pos> {
    set q | q in done && Gone(Get(cells, q), q in flowed)
  }

  ghost function StalledOf(cells: map<Pos, WaterCell>, done: set<Pos>, flowed: set<Pos>): set<Pos> {
    set q | q in done && q !in flowed && Stalls(Get(cells, q))
  }

  ghost function WokenOf(cells: map<Pos, WaterCell>, flowed: set<Pos>): set<Pos> {
    set q | q in flowed && !Gone(Get(cells, q), true)
  }

  ghost function ThinnedOf(cells: map<Pos, WaterCell>, done: set<Pos>, flowed: set<Pos>): set<Pos> {
    set q | q in done && q in cells && q !in flowed && Thins(cells[q], false)
  }

  /** The bookkeeping after some of the cells, by what became of each. */
  ghost predicate Tells(cells: map<Pos, WaterCell>, start: set<Pos>, done: set<Pos>, p: Progress) {
    exists flowed :: flowed == Froms(p.st.log) && flowed <= done && TellsOf(cells, start, done, flowed, p)
  }

  ghost predicate TellsOf(cells: map<Pos, WaterCell>, start: set<Pos>, done: set<Pos>, flowed: set<Pos>, p: Progress) {
    && p.st.cells.Keys == cells.Keys - GoneOf(cells, done, flowed) && p.active == start - GoneOf(cells, done, flowed)
    && p.deactivate == StalledOf(cells, done, flowed) && p.dirty == NeighborsOf(WokenOf(cells, flowed))
    && p.changed == Mentioned(p.st.log) + ThinnedOf(cells, done, flowed)
  }

  /** One more cell, with or without flow. */
  lemma SetsNext(cells: map<Pos, WaterCell>, done: set<Pos>, flowed: set<Pos>, pos: Pos, flows: bool)
    requires pos !in done && flowed <= done
    ensures var next, c := flowed + If(flows, pos), Get(cells, pos);
            && GoneOf(cells, done + {pos}, next) == GoneOf(cells, done, flowed) + If(Gone(c, flows), pos)
            && StalledOf(cells, done + {pos}, next) == StalledOf(cells, done, flowed) + If(!flows && Stalls(c), pos)
            && WokenOf(cells, next) == WokenOf(cells, flowed) + If(flows && !Gone(c, true), pos)
            && ThinnedOf(cells, done + {pos}, next)
               == ThinnedOf(cells, done, flowed) + If(!flows && pos in cells && Thins(cells[pos], false), pos)
  {}

  lemma CellFroms(log: seq<Transfer>, pos: Pos, f: FlowResult, belowVoid: bool)
    requires NoNegative(f)
    ensures Froms(log + CellLog(pos, f, belowVoid)) == Froms(log) + If(f.HasFlow(), pos)
    ensures f.HasFlow() ==> pos in Mentioned(CellLog(pos, f, belowVoid))
  {
    CellLogFrom(pos, f, belowVoid);
    if f.HasFlow() {
      DirectionsAreOutflow(pos, f, belowVoid);
      assert CellLog(pos, f, belowVoid)[0] in CellLog(pos, f, belowVoid);
    }
  }

  /** The source's guards, cell by cell. */
  lemma GuardsTold(was: map<Pos, WaterCell>, cells: map<Pos, WaterCell>, pos: Pos, f: FlowResult)
    requires Get(was, pos) == Get(cells, pos)
    ensures GoneAt(was, pos, f) == Gone(Get(cells, pos), f.HasFlow())
    ensures StalledAt(was, pos, f) == (!f.HasFlow() && Stalls(Get(cells, pos)))
    ensures EvaporatingAt(was, pos, f) == (!f.HasFlow() && pos in cells && Thins(cells[pos], false))
    ensures Processed(was, pos, f).Keys == was.Keys - If(GoneAt(was, pos, f), pos)
  {}

  lemma Minus(s: set<Pos>, a: set<Pos>, b: set<Pos>)
    ensures s - a - b == s - (a + b)
  {}

  lemma ChangedNext(mentioned: set<Pos>, thinned: set<Pos>, flows: set<Pos>, pos: Pos, gone: bool, thins: bool)
    requires gone && !thins ==> pos in flows
    ensures mentioned + thinned + flows + If(gone || thins, pos) == mentioned + flows + (thinned + If(thins, pos))
  {}

  /** One processed cell, by what became of it. */
  lemma TellsNext(cells: map<Pos, WaterCell>, start: set<Pos>, done: set<Pos>, p: Progress, pos: Pos,
                  flows: bool, gone: bool, stalled: bool, thinned: bool, mentioned: set<Pos>, next: Progress)
    requires Tells(cells, start, done, p) && pos !in done
    requires gone == Gone(Get(cells, pos), flows) && stalled == (!flows && Stalls(Get(cells, pos)))
    requires thinned == (!flows && pos in cells && Thins(cells[pos], false))
    requires Froms(next.st.log) == Froms(p.st.log) + If(flows, pos)
    requires Mentioned(next.st.log) == Mentioned(p.st.log) + mentioned && (flows ==> pos in mentioned)
    requires next.st.cells.Keys == p.st.cells.Keys - If(gone, pos) && next.active == p.active - If(gone, pos)
    requires next.dirty == p.dirty + (if flows && !gone then NeighborsOf({pos}) else {})
    requires next.changed == p.changed + mentioned + If(gone || thinned, pos)
    requires next.deactivate == p.deactivate + If(stalled, pos)
    ensures Tells(cells, start, done + {pos}, next)
  {
    var flowed := Froms(p.st.log);
    SetsNext(cells, done, flowed, pos, flows);
    NeighborsOfUnion(WokenOf(cells, flowed), pos);
    assert WokenOf(cells, flowed) + {} == WokenOf(cells, flowed);
    Minus(cells.Keys, GoneOf(cells, done, flowed), If(gone, pos));
    Minus(start, GoneOf(cells, done, flowed), If(gone, pos));
    ChangedNext(Mentioned(p.st.log), ThinnedOf(cells, done, flowed), mentioned, pos, gone, thinned);
    assert Froms(next.st.log) <= done + {pos} && TellsOf(cells, start, done + {pos}, Froms(next.st.log), next);
  }

  lemma StepTells(cells: map<Pos, WaterCell>, start: set<Pos>, done: set<Pos>, p: Progress, pos: Pos, env: Env, next: Progress)
    requires Tells(cells, start, done, p) && pos !in done && Get(p.st.cells, pos) == Get(cells, pos)
    requires next == NextProgress(p, pos, env)
    ensures Tells(cells, start, done + {pos}, next)
  {
    var f := FlowAfter(p.st.cells, p.st.log, pos, env);
    var flows := CellLog(pos, f, env.isOutOfBounds(pos.Plus(BELOW)));
    FlowIsSafe(Val(Masses(p.st.cells), pos), TypeAt(p.st.cells, pos),
               CacheNeighborMasses(Masses(p.st.cells), PendingOf(p.st.log), pos, env, MAX_MASS));
    CellFroms(p.st.log, pos, f, env.isOutOfBounds(pos.Plus(BELOW)));
    MentionedAppend(p.st.log, flows);
    GuardsTold(p.st.cells, cells, pos, f);
    TellsNext(cells, start, done, p, pos, f.HasFlow(), GoneAt(p.st.cells, pos, f), StalledAt(p.st.cells, pos, f),
              EvaporatingAt(p.st.cells, pos, f), Mentioned(flows), next);
  }

  lemma StartTells(cells: map<Pos, WaterCell>, start: set<Pos>, p: Progress)
    requires p == Progress(TickState(cells, [], map[]), start, {}, {}, {})
    ensures Tells(cells, start, Elements([]), p)
  {
    assert Elements([]) == {} && Froms(p.st.log) == {} && TellsOf(cells, start, {}, {}, p);
  }

  lemma ElementsNext(order: seq<Pos>)
    requires order != [] && Distinct(order)
    ensures Elements(order) == Elements(order[..|order| - 1]) + {order[|order| - 1]}
    ensures order[|order| - 1] !in Elements(order[..|order| - 1])
  {}

  lemma {:induction false} ProgressTells(cells: map<Pos, WaterCell>, start: set<Pos>, order: seq<Pos>, env: Env, p: Progress)
    requires Distinct(order) && p == ProgressAfter(cells, start, order, env)
    ensures Tells(cells, start, Elements(order), p)
  {
    if order == [] {
      StartTells(cells, start, p);
    } else {
      var init, pos := order[..|order| - 1], order[|order| - 1];
      ElementsNext(order);
      ProgressTells(cells, start, init, env, ProgressAfter(cells, start, init, env));
      StateKeys(cells, init, env);
      StepTells(cells, start, Elements(init), ProgressAfter(cells, start, init, env), pos, env, p);
    }
  }

  lemma ActivityTold(before: map<Pos, WaterCell>, start: set<Pos>, order: seq<Pos>, p: Progress,
                     cells: map<Pos, WaterCell>, active: set<Pos>, dirty: set<Pos>, changed: set<Pos>)
    requires Tells(before, start, Elements(order), p) && dirty == p.dirty && changed == p.changed
    requires active == ActiveAfter(p.active, p.st.cells.Keys, cells.Keys, Mentioned(p.st.log)) - p.deactivate
    ensures IsActivity(start, before, order, p.st.log, cells, active, dirty, changed)
  {}

  lemma ActivityLaw(before: map<Pos, WaterCell>, start: set<Pos>, order: seq<Pos>, env: Env,
                    cells: map<Pos, WaterCell>, active: set<Pos>, dirty: set<Pos>, changed: set<Pos>)
    requires Distinct(order) && TickDone(before, start, order, env, cells, active, dirty, changed)
    ensures IsActivity(start, before, order, StateAfter(before, order, env).log, cells, active, dirty, changed)
  {
    ProgressTells(before, start, order, env, ProgressAfter(before, start, order, env));
    ActivityTold(before, start, order, ProgressAfter(before, start, order, env), cells, active, dirty, changed);
  }

  lemma ProgressNext(cells: map<Pos, WaterCell>, active: set<Pos>, todo: seq<Pos>, i: int, env: Env)
    requires 0 <= i < |todo|
    ensures ProgressAfter(cells, active, todo[..i + 1], env)
            == NextProgress(ProgressAfter(cells, active, todo[..i], env), todo[i], env)
  {
    assert todo[..i + 1][..i] == todo[..i];
  }

  lemma PendingKeys(log: seq<Transfer>)
    ensures PendingOf(log).Keys == Mentioned(log)
  {}

  /** The first i flows, and what they leave. */
  ghost predicate Spreading(sides: seq<Side>, i: nat, start: real, average: real, rate: real, flows: seq<real>, remaining: real)
    requires i <= |sides|
  {
    && |flows| == i && remaining == start - Sum(flows)
    && flows + SideFlows(sides[i..], remaining, average, rate) == SideFlows(sides, start, average, rate)
  }

  lemma SpreadNext(sides: seq<Side>, i: nat, start: real, average: real, rate: real, flows: seq<real>, remaining: real)
    requires i < |sides| && Spreading(sides, i, start, average, rate, flows, remaining)
    ensures var flow := SideFlow(sides[i], remaining, average, rate);
            Spreading(sides, i + 1, start, average, rate, flows + [flow], remaining - flow)
  {
    var flow := SideFlow(sides[i], remaining, average, rate);
    assert sides[i..][1..] == sides[i + 1..];
    assert SideFlows(sides[i..], remaining, average, rate) == [flow] + SideFlows(sides[i + 1..], remaining - flow, average, rate);
    SumAppend(flows, flow);
  }

  lemma {:induction false} SumAppend(flows: seq<real>, flow: real)
    ensures Sum(flows + [flow]) == Sum(flows) + flow
  {
    if flows != [] {
      SumAppend(flows[1..], flow);
      assert (flows + [flow])[1..] == flows[1..] + [flow];
    }
  }

  lemma SettledByPoints(before: map<Pos, WaterCell>, pending: map<Pos, real>, types: map<Pos, WaterType>, cells: map<Pos, WaterCell>)
    requires pending.Keys <= types.Keys
    requires forall p :: Get(cells, p) == After(before, pending, types, p)
    ensures cells == Settled(before, pending, types)
  {
    forall p
      ensures Get(Settled(before, pending, types), p) == After(before, pending, types, p)
    {}
    assert forall p :: p in cells <==> Get(cells, p).Some?;
    assert forall p :: p in Settled(before, pending, types) <==> Get(Settled(before, pending, types), p).Some?;
    assert forall p :: p in cells ==> Get(cells, p) == Get(Settled(before, pending, types), p);
  }
}
