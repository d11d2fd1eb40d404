/** The lava grid: the stateful operations, each proved to apply the corresponding operation of module Lava. */
module LavaGrids {
  import opened Geometry
  import opened Ledger
  import opened Fluid
  import opened FluidTick
  import opened Lava
  import opened LavaLaws

  const DEFAULT_LAVA_UPDATES_PER_FRAME: nat := 128
  const DEFAULT_SIMULATION_RADIUS: real := 48.0

  /** Lava at p with water at p or next to it. */
  predicate TouchesWater(cells: map<Pos, LavaCell>, hasWater: Pos -> bool, p: Pos) {
    p in cells && cells[p].HasLava() && (hasWater(p) || exists d :: d in ORTHO_DIRS && hasWater(p.Plus(d)))
  }

  class LavaGrid {
    var cells: map<Pos, LavaCell>
    var active: set<Pos>
    var pendingChanges: map<Pos, real>
    var dirtyPositions: set<Pos>
    var maxUpdatesPerFrame: nat
    var simulationRadius: real
    const yBuckets: array<seq<Pos>>

    /** Between calls no delta is pending. */
    ghost predicate Valid()
      reads this
    {
      pendingChanges == map[] && yBuckets.Length == Y_BUCKET_COUNT
    }

    constructor ()
      ensures Valid() && fresh(yBuckets)
      ensures cells == map[] && active == {} && dirtyPositions == {}
    {
      cells, active, pendingChanges, dirtyPositions := map[], {}, map[], {};
      maxUpdatesPerFrame, simulationRadius := DEFAULT_LAVA_UPDATES_PER_FRAME, DEFAULT_SIMULATION_RADIUS;
      yBuckets := new seq<Pos>[Y_BUCKET_COUNT](_ => []);
    }

    predicate HasLava(pos: Pos)
      reads this
    {
      pos in cells && cells[pos].HasLava()
    }

    method SetLava(pos: Pos, mass: real, isSource: bool)
      requires Valid()
      modifies this
      ensures Valid() && unchanged(`dirtyPositions, `maxUpdatesPerFrame, `simulationRadius)
      ensures cells == Apply(old(cells), Op.Set(pos, mass, isSource))
      ensures pos in cells <==> mass > MIN_MASS || isSource
      ensures pos in cells ==> cells[pos] == LavaCell(if isSource then MAX_MASS else mass, isSource, 0)
      ensures cells - {pos} == old(cells) - {pos}
      ensures active == if pos in cells then old(active) + {pos} else old(active) - {pos}
    {
      if mass <= MIN_MASS && !isSource {
        cells := cells - {pos};
        active := active - {pos};
      } else {
        cells := cells[pos := LavaCell(if isSource then MAX_MASS else mass, isSource, 0)];
        active := active + {pos};
      }
    }

    method AddLava(pos: Pos, amount: real)
      requires Valid()
      modifies this
      ensures Valid() && unchanged(`dirtyPositions, `maxUpdatesPerFrame, `simulationRadius)
      ensures cells == Apply(old(cells), Add(pos, amount))
      ensures amount <= 0.0 ==> cells == old(cells)
      ensures amount > 0.0 ==> pos in cells && Val(Masses(cells), pos) == Val(Masses(old(cells)), pos) + amount
      ensures cells - {pos} == old(cells) - {pos} && Sources(cells) == Sources(old(cells))
      ensures active == if amount <= 0.0 then old(active) else old(active) + {pos}
    {
      if amount <= 0.0 {
        return;
      }
      var cell := if pos in cells then cells[pos] else LavaCell(0.0, false, 0);
      cells := cells[pos := cell.(mass := cell.mass + amount, stableTicks := 0)];
      active := active + {pos};
    }

    /** Returns what was really taken: never more than the cell had, nothing from a source. */
    method RemoveLava(pos: Pos, amount: real) returns (removed: real)
      requires Valid()
      modifies this
      ensures Valid() && unchanged(`dirtyPositions, `maxUpdatesPerFrame, `simulationRadius)
      ensures cells == Apply(old(cells), Remove(pos, amount))
      ensures removed == if pos !in old(cells) || old(cells)[pos].isSource then 0.0
                         else if amount <= old(cells)[pos].mass then amount else old(cells)[pos].mass
      ensures if pos in cells then Val(Masses(cells), pos) == Val(Masses(old(cells)), pos) - removed
              else pos in old(cells) ==> old(cells)[pos].mass - removed <= MIN_MASS
      ensures pos in cells && pos !in Sources(cells) ==> cells[pos].mass > MIN_MASS
      ensures cells - {pos} == old(cells) - {pos} && Sources(cells) == Sources(old(cells))
      ensures active == if pos !in old(cells) || old(cells)[pos].isSource then old(active)
                        else if pos in cells then old(active) + {pos} else old(active) - {pos}
    {
      if pos !in cells || cells[pos].isSource {
        return 0.0;
      }
      var cell := cells[pos];
      removed := Min(amount, cell.mass);
      cells := cells[pos := cell.(mass := cell.mass - removed, stableTicks := 0)];
      active := active + {pos};
      if cells[pos].mass <= MIN_MASS {
        cells := cells - {pos};
        active := active - {pos};
        assert cells == old(cells) - {pos};
      }
    }

    method RemoveSource(pos: Pos)
      requires Valid()
      modifies this
      ensures Valid() && unchanged(`dirtyPositions, `maxUpdatesPerFrame, `simulationRadius)
      ensures cells == Apply(old(cells), Op.RemoveSource(pos))
      ensures Masses(cells) == Masses(old(cells)) && Sources(cells) == Sources(old(cells)) - {pos}
      ensures active == if pos in cells then old(active) + {pos} else old(active)
    {
      if pos in cells {
        cells := cells[pos := cells[pos].(isSource := false, stableTicks := 0)];
        active := active + {pos};
      }
    }

    /** Marks a position and its neighbours; an already marked position is left alone. */
    method ActivateNeighbors(pos: Pos)
      modifies this`dirtyPositions
      ensures dirtyPositions == DirtyAfter(old(dirtyPositions), pos)
    {
      if pos !in dirtyPositions {
        dirtyPositions := dirtyPositions + {pos};
        for i := 0 to |ORTHO_DIRS|
          invariant dirtyPositions == old(dirtyPositions) + {pos} + set j | 0 <= j < i :: pos.Plus(ORTHO_DIRS[j])
        {
          dirtyPositions := dirtyPositions + {pos.Plus(ORTHO_DIRS[i])};
        }
      }
    }

    method PlaceSource(pos: Pos)
      requires Valid()
      modifies this
      ensures Valid() && unchanged(`maxUpdatesPerFrame, `simulationRadius)
      ensures cells == old(cells)[pos := LavaCell(MAX_MASS, true, 0)] && active == old(active) + {pos}
      ensures dirtyPositions == DirtyAfter(old(dirtyPositions), pos)
    {
      SetLava(pos, MAX_MASS, true);
      ActivateNeighbors(pos);
    }

    /** A solid block now occupies pos. */
    method OnBlockPlaced(pos: Pos)
      modifies this`cells, this`active, this`dirtyPositions
      ensures cells == Apply(old(cells), BlockPlaced(pos)) == old(cells) - {pos} && active == old(active) - {pos}
      ensures dirtyPositions == DirtyAfter(old(dirtyPositions), pos)
    {
      cells := cells - {pos};
      active := active - {pos};
      ActivateNeighbors(pos);
    }

    /** The flow algorithm, step by step over `remaining`. */
    method CalculateFlowCached(pos: Pos, n: NeighborMasses) returns (result: FlowResult)
      ensures result == FlowOf(Val(Masses(cells), pos), n)
      ensures IsFlow(Val(Masses(cells), pos), n, result)
    {
      result := FlowSteps(pos, n);
      FlowIsFlow(Val(Masses(cells), pos), n, result);
    }

    method FlowSteps(pos: Pos, n: NeighborMasses) returns (result: FlowResult)
      ensures result == FlowOf(Val(Masses(cells), pos), n)
    {
      result := NO_FLOW;
      if pos !in cells || !cells[pos].HasLava() {
        return;
      }
      var remaining := cells[pos].mass;
      if n.belowVoid {
        result := result.(down := remaining);
        remaining := 0.0;
      } else if !n.belowSolid {
        var spaceBelow := MAX_MASS - n.below;
        if spaceBelow > MIN_FLOW {
          var flow := Min(remaining, spaceBelow) * FLOW_DAMPING;
          if flow > MIN_FLOW {
            result := result.(down := flow);
            remaining := remaining - flow;
          }
        }
      }
      if remaining > MIN_FLOW && n.belowSolid {
        var sides := Sides(n);
        var totalMass, lowerCount := CountLower(sides, remaining);
        if lowerCount > 0 {
          var flows := SpreadSideways(sides, remaining, totalMass / (1 + lowerCount) as real);
          result := FlowResult(result.down, flows[0], flows[1], flows[2], flows[3]);
        }
      }
    }

    /** First pass: total mass of the cell and its lower neighbours, and their number. */
    static method CountLower(sides: seq<Side>, remaining: real) returns (totalMass: real, lowerCount: nat)
      ensures totalMass == remaining + LowerMass(sides, remaining) && lowerCount == LowerCount(sides, remaining)
    {
      totalMass, lowerCount := remaining, 0;
      for i := 0 to |sides|
        invariant totalMass == remaining + LowerMass(sides[..i], remaining)
        invariant lowerCount == LowerCount(sides[..i], remaining)
      {
        assert sides[..i + 1][..i] == sides[..i];
        if sides[i].open && sides[i].mass < remaining {
          totalMass := totalMass + sides[i].mass;
          lowerCount := lowerCount + 1;
        }
      }
      assert sides[..|sides|] == sides;
    }

    /** Second pass: damped flow to each neighbour below the average, `remaining` shrinking as it goes. */
    static method SpreadSideways(sides: seq<Side>, start: real, average: real) returns (flows: seq<real>)
      ensures flows == SideFlows(sides, start, average)
    {
      var remaining := start;
      flows := [];
      for i := 0 to |sides|
        invariant Spreading(sides, i, start, average, flows, remaining)
      {
        var flow := FlowToSide(sides[i], remaining, average);
        SpreadNext(sides, i, start, average, flows, remaining);
        flows := flows + [flow];
        remaining := remaining - flow;
      }
    }

    static method FlowToSide(s: Side, remaining: real, average: real) returns (flow: real)
      ensures flow == SideFlow(s, remaining, average)
    {
      flow := 0.0;
      if s.open && s.mass < remaining && s.mass < average {
        var amount := (average - s.mass) * FLOW_DAMPING;
        if amount > MIN_FLOW && remaining > amount {
          flow := amount;
        }
      }
    }

    /** One pending delta. */
    method ApplyOne(p: Pos, delta: real)
      modifies this`cells, this`active
      ensures Get(cells, p) == Settle(Get(old(cells), p), delta) && IsDrained(Get(old(cells), p), Some(delta), Get(cells, p))
      ensures forall q :: q != p ==> Get(cells, q) == Get(old(cells), q)
      ensures active == if p in cells then old(active) + {p} else if p in old(cells) then old(active) - {p} else old(active)
    {
      if p in cells {
        var cell := cells[p];
        if !cell.isSource {
          var mass := Max(cell.mass + delta, 0.0);
          if mass <= MIN_MASS {
            cells := cells - {p};
            active := active - {p};
            return;
          }
          cells := cells[p := cell.(mass := mass, stableTicks := 0)];
        }
        active := active + {p};
      } else if delta > MIN_MASS {
        cells := cells[p := LavaCell(delta, false, 0)];
        active := active + {p};
      }
    }

    /** Drains the pending deltas, in any order. */
    method ApplyPendingChanges()
      modifies this`cells, this`active, this`pendingChanges
      ensures pendingChanges == map[]
      ensures cells == Settled(old(cells), old(pendingChanges))
      ensures forall q :: IsDrained(Get(old(cells), q), Get(old(pendingChanges), q), Get(cells, q))
      ensures active == ActiveAfter(old(active), old(cells).Keys, cells.Keys, old(pendingChanges).Keys)
    {
      ghost var before, all := cells, pendingChanges;
      while pendingChanges != map[]
        invariant pendingChanges.Keys <= all.Keys && forall p :: p in pendingChanges ==> pendingChanges[p] == all[p]
        invariant forall p :: Get(cells, p) == if p in pendingChanges then Get(before, p) else After(before, all, p)
        invariant active == ActiveAfter(old(active), before.Keys, cells.Keys, all.Keys - pendingChanges.Keys)
        decreases pendingChanges
      {
        var p :| p in pendingChanges;
        var delta := pendingChanges[p];
        ghost var done := all.Keys - pendingChanges.Keys;
        pendingChanges := pendingChanges - {p};
        ghost var was := cells;
        assert Get(cells, p) == Get(before, p);
        ApplyOne(p, delta);
        assert all.Keys - pendingChanges.Keys == done + {p};
        assert forall q :: q in cells <==> Get(cells, q).Some?;
        assert forall q :: q in was <==> Get(was, q).Some?;
        ActiveNext(old(active), before.Keys, was.Keys, cells.Keys, done, p);
      }
      assert all.Keys - pendingChanges.Keys == all.Keys;
      SettledByPoints(before, all, cells);
      forall q {
        DrainedLaw(before, all, q);
      }
    }

    // ----- the tick

    /** Credits the destination of one flow that is large enough and not lost. */
    method RecordInflow(t: Transfer, changed: set<Pos>) returns (changed': set<Pos>)
      modifies this`pendingChanges
      ensures var recorded := t.amount > MIN_FLOW && t.to.Some?;
              && pendingChanges == (if recorded then Bump(old(pendingChanges), t.to.value, t.amount) else old(pendingChanges))
              && changed' == (if recorded then changed + {t.to.value} else changed)
    {
      changed' := changed;
      if t.amount > MIN_FLOW {
        if t.to.Some? {
          var target := t.to.value;
          pendingChanges := pendingChanges[target := Val(pendingChanges, target) + t.amount];
          changed' := changed + {target};
        }
      }
    }

    /** Credits every recorded flow of a cell. */
    method CreditAll(all: seq<Transfer>, changed: set<Pos>) returns (changed': set<Pos>)
      requires forall t :: t in all ==> t.amount == 0.0 || t.amount > MIN_FLOW
      modifies this`pendingChanges
      ensures pendingChanges == Credited(old(pendingChanges), Positive(all))
      ensures changed' == changed + Targets(Positive(all))
    {
      changed' := changed;
      assert all[..0] == [];
      for i := 0 to |all|
        invariant pendingChanges == Credited(old(pendingChanges), Positive(all[..i]))
        invariant changed' == changed + Targets(Positive(all[..i]))
      {
        assert all[i] in all;
        PositiveStep(old(pendingChanges), all, i);
        changed' := RecordInflow(all[i], changed');
      }
      assert all[..|all|] == all;
    }

    /** Debits the cell by its outflow and credits each neighbour that receives some. */
    method RecordFlow(pos: Pos, all: seq<Transfer>, totalOut: real, changed: set<Pos>, ghost log: seq<Transfer>)
      returns (changed': set<Pos>)
      requires pendingChanges == PendingOf(log) && IsOutflow(all, pos, totalOut)
      requires forall t :: t in all ==> t.amount == 0.0 || t.amount > MIN_FLOW
      modifies this`pendingChanges
      ensures pendingChanges == PendingOf(log + Positive(all))
      ensures changed' == changed + Mentioned(Positive(all))
    {
      pendingChanges := Bump(pendingChanges, pos, -totalOut);
      changed' := CreditAll(all, changed + {pos});
      OutflowPending(log, pos, all, totalOut);
    }

    /** The stability counter of a processed cell: reset by flow, else counted up to the limit of its byte. */
    method AgeCell(pos: Pos, f: FlowResult)
      modifies this`cells
      ensures cells == Processed(old(cells), pos, f)
    {
      if pos in cells {
        var ticks := if f.HasFlow() then 0
                     else if cells[pos].stableTicks < MAX_TICKS then cells[pos].stableTicks + 1 else MAX_TICKS;
        cells := cells[pos := cells[pos].(stableTicks := ticks)];
      }
    }

    /** What a processed cell does with its flow. */
    method ApplyFlow(pos: Pos, f: FlowResult, env: Env, changed: set<Pos>, ghost log: seq<Transfer>) returns (changed': set<Pos>)
      requires pendingChanges == PendingOf(log) && (f.HasFlow() ==> NothingTiny(f))
      modifies this`pendingChanges, this`cells, this`dirtyPositions
      ensures pendingChanges == PendingOf(log + CellLog(pos, f, env))
      ensures changed' == changed + Mentioned(CellLog(pos, f, env))
      ensures cells == Processed(old(cells), pos, f)
      ensures dirtyPositions == old(dirtyPositions) + (if f.HasFlow() then NeighborsOf({pos}) else {})
    {
      changed' := changed;
      if f.HasFlow() {
        var all := OutflowOf(pos, f, env);
        changed' := RecordFlow(pos, all, f.TotalOutflow(), changed, log);
        dirtyPositions := dirtyPositions + NeighborsOf({pos});
      } else {
        assert log + CellLog(pos, f, env) == log;
      }
      AgeCell(pos, f);
    }

    static method OutflowOf(pos: Pos, f: FlowResult, env: Env) returns (all: seq<Transfer>)
      requires f.HasFlow() && NothingTiny(f)
      ensures IsOutflow(all, pos, f.TotalOutflow()) && CellLog(pos, f, env) == Positive(all)
      ensures forall t :: t in all ==> t.amount == 0.0 || t.amount > MIN_FLOW
    {
      all := Directions(pos, f, env);
      DirectionsAreOutflow(pos, f, env);
    }

    /** The start of a tick: wake dirty cells and prune those out of range. */
    method WakeAndPrune(playerPos: Vec)
      modifies this`active, this`dirtyPositions
      ensures dirtyPositions == {}
      ensures active == Candidates(cells, old(active), old(dirtyPositions), playerPos, simulationRadius)
    {
      active := active + Woken(cells, dirtyPositions);
      dirtyPositions := {};
      active := WithinRadius(active, playerPos, simulationRadius);
    }

    ghost function StateOf(log: seq<Transfer>, changed: set<Pos>, waterContacts: set<Pos>, deactivate: set<Pos>): TickState
      reads this
    {
      TickState(cells, pendingChanges, dirtyPositions, log, changed, waterContacts, deactivate)
    }

    /** The flow of one cell, from its cached neighbours. */
    method FlowAt(pos: Pos, env: Env) returns (f: FlowResult)
      ensures f == FlowOf(Val(Masses(cells), pos), CacheNeighborMasses(Masses(cells), pendingChanges, pos, env, MAX_MASS))
      ensures f.HasFlow() ==> NothingTiny(f)
    {
      var n := CacheNeighborMasses(Masses(cells), pendingChanges, pos, env, MAX_MASS);
      f := CalculateFlowCached(pos, n);
      FlowIsNotTiny(Val(Masses(cells), pos), n);
    }

    /** The body of the tick's loop, given the flow. */
    method TickStep(pos: Pos, f: FlowResult, env: Env, hasWater: Pos -> bool, changed: set<Pos>, waterContacts: set<Pos>,
                    deactivate: set<Pos>, ghost log: seq<Transfer>)
      returns (changed': set<Pos>, waterContacts': set<Pos>, deactivate': set<Pos>)
      requires pendingChanges == PendingOf(log) && (f.HasFlow() ==> NothingTiny(f))
      modifies this`pendingChanges, this`cells, this`dirtyPositions
      ensures StateOf(log + CellLog(pos, f, env), changed', waterContacts', deactivate')
              == NextState(old(StateOf(log, changed, waterContacts, deactivate)), pos, f, env, hasWater)
    {
      waterContacts' := waterContacts + Contact(cells, hasWater, pos);
      changed' := ApplyFlow(pos, f, env, changed, log);
      deactivate' := deactivate + StalledNow(cells, pos, f);
    }

    /** The loop over the processing order. */
    method ProcessAll(todo: seq<Pos>, env: Env, hasWater: Pos -> bool)
      returns (changed: set<Pos>, waterContacts: set<Pos>, deactivate: set<Pos>, ghost log: seq<Transfer>)
      requires Distinct(todo) && pendingChanges == map[] && dirtyPositions == {}
      modifies this`pendingChanges, this`cells, this`dirtyPositions
      ensures InProgress(old(cells), todo, |todo|, env, hasWater, StateOf(log, changed, waterContacts, deactivate))
    {
      log, changed, waterContacts, deactivate := [], {}, {}, {};
      StartsInProgress(cells, todo, env, hasWater);
      for i := 0 to |todo|
        invariant InProgress(old(cells), todo, i, env, hasWater, StateOf(log, changed, waterContacts, deactivate))
      {
        ghost var st := StateOf(log, changed, waterContacts, deactivate);
        var f := FlowAt(todo[i], env);
        changed, waterContacts, deactivate := TickStep(todo[i], f, env, hasWater, changed, waterContacts, deactivate, log);
        ProgressNext(old(cells), todo, i, env, hasWater, st, f);
        log := log + CellLog(todo[i], f, env);
      }
    }

    /**
     One tick, on the cells, the active and dirty sets, and the reported positions. `order` is the
     order in which cells were processed and `log` the transfers that order makes.
     */
    method Tick(env: Env, hasWater: Pos -> bool, playerPos: Vec)
      returns (changed: set<Pos>, waterContacts: set<Pos>, ghost order: seq<Pos>, ghost log: seq<Transfer>)
      requires Valid()
      modifies this, yBuckets
      ensures Valid() && unchanged(`maxUpdatesPerFrame, `simulationRadius)
      ensures IsProcessingOrder(order, Candidates(old(cells), old(active), old(dirtyPositions), playerPos, simulationRadius),
                                maxUpdatesPerFrame)
      ensures log == TickLog(Masses(old(cells)), order, env)
      ensures cells == Apply(old(cells), Op.Tick(order, env))
      ensures IsTick(old(cells), order, env, log, cells)
      ensures changed == Mentioned(log) && dirtyPositions == NeighborsOf(Froms(log))
      ensures waterContacts == Contacts(old(cells), hasWater, Elements(order))
      ensures active == ActiveAfterTick(Candidates(old(cells), old(active), old(dirtyPositions), playerPos, simulationRadius),
                                        old(cells), cells, order, log)
      ensures IsActivity(Candidates(old(cells), old(active), old(dirtyPositions), playerPos, simulationRadius),
                         old(cells), cells, order, log, active)
    {
      ghost var before := cells;
      WakeAndPrune(playerPos);
      WithinTwice(old(active) + Woken(before, old(dirtyPositions)), playerPos, simulationRadius);
      var todo := TakeInOrder(active, playerPos, simulationRadius, maxUpdatesPerFrame, yBuckets);
      order := todo;
      changed, waterContacts, log := ProcessAndSettle(todo, env, hasWater);
    }

    /** The processing loop, settling, and deactivation. */
    method ProcessAndSettle(todo: seq<Pos>, env: Env, hasWater: Pos -> bool)
      returns (changed: set<Pos>, waterContacts: set<Pos>, ghost log: seq<Transfer>)
      requires Distinct(todo) && pendingChanges == map[] && dirtyPositions == {}
      modifies this`pendingChanges, this`cells, this`dirtyPositions, this`active
      ensures pendingChanges == map[]
      ensures log == TickLog(Masses(old(cells)), todo, env)
      ensures cells == Apply(old(cells), Op.Tick(todo, env))
      ensures changed == Mentioned(log) && dirtyPositions == NeighborsOf(Froms(log))
      ensures waterContacts == Contacts(old(cells), hasWater, Elements(todo))
      ensures active == ActiveAfterTick(old(active), old(cells), cells, todo, log)
      ensures IsTick(old(cells), todo, env, log, cells) && IsActivity(old(active), old(cells), cells, todo, log, active)
    {
      ghost var before := cells;
      var deactivate;
      changed, waterContacts, deactivate, log := ProcessAll(todo, env, hasWater);
      ProgressDone(before, todo, env, hasWater, StateOf(log, changed, waterContacts, deactivate));
      FinishTick(deactivate, before, todo, log);
      TickApplied(before, todo, env, log);
      TickIsTick(before, todo, env, log, cells);
      ActiveLaw(old(active), before, cells, todo, log);
    }

    /** After the loop: settle, then deactivate the stalled cells. */
    method FinishTick(deactivate: set<Pos>, ghost before: map<Pos, LavaCell>, ghost order: seq<Pos>, ghost log: seq<Transfer>)
      requires pendingChanges == PendingOf(log)
      requires cells == AgedCells(before, Elements(order), Froms(log))
      requires deactivate == Stalled(before, Elements(order), Froms(log))
      modifies this`cells, this`active, this`pendingChanges
      ensures pendingChanges == map[]
      ensures cells == Settled(AgedCells(before, Elements(order), Froms(log)), PendingOf(log))
      ensures active == ActiveAfterTick(old(active), before, cells, order, log)
    {
      ApplyPendingChanges();
      active := active - deactivate;
    }
  }

  /** Dirty positions that hold lava. */
  function Woken(cells: map<Pos, LavaCell>, dirty: set<Pos>): set<Pos> {
    set p | p in dirty && p in cells && cells[p].HasLava()
  }

  /** The positions a tick may process: active or woken, and in range. */
  function Candidates(cells: map<Pos, LavaCell>, active: set<Pos>, dirty: set<Pos>, playerPos: Vec, radius: real): set<Pos> {
    WithinRadius(active + Woken(cells, dirty), playerPos, radius)
  }

  /** Everything a tick has built up between two cells. */
  datatype TickState = TickState(
    cells: map<Pos, LavaCell>, pending: map<Pos, real>, dirty: set<Pos>, log: seq<Transfer>,
    changed: set<Pos>, waterContacts: set<Pos>, deactivate: set<Pos>)

  /** The cells after one of them was processed. */
  function Processed(cells: map<Pos, LavaCell>, pos: Pos, f: FlowResult): map<Pos, LavaCell> {
    if pos in cells then cells[pos := Aged(cells[pos], f.HasFlow())] else cells
  }

  function Contact(cells: map<Pos, LavaCell>, hasWater: Pos -> bool, pos: Pos): set<Pos> {
    if TouchesWater(cells, hasWater, pos) then {pos} else {}
  }

  function Contacts(cells: map<Pos, LavaCell>, hasWater: Pos -> bool, done: set<Pos>): set<Pos> {
    set p | p in done && TouchesWater(cells, hasWater, p)
  }

  function StalledNow(cells: map<Pos, LavaCell>, pos: Pos, f: FlowResult): set<Pos> {
    if !f.HasFlow() && pos in cells && cells[pos].stableTicks >= STABLE_AFTER then {pos} else {}
  }

  /** Processing one cell with flow f. */
  ghost function NextState(st: TickState, pos: Pos, f: FlowResult, env: Env, hasWater: Pos -> bool): TickState {
    TickState(
      Processed(st.cells, pos, f),
      PendingOf(st.log + CellLog(pos, f, env)),
      st.dirty + (if f.HasFlow() then NeighborsOf({pos}) else {}),
      st.log + CellLog(pos, f, env),
      st.changed + Mentioned(CellLog(pos, f, env)),
      st.waterContacts + Contact(st.cells, hasWater, pos),
      st.deactivate + StalledNow(Processed(st.cells, pos, f), pos, f))
  }

  /** The state of a tick after the first i cells of the order. */
  ghost predicate InProgress(before: map<Pos, LavaCell>, order: seq<Pos>, i: int, env: Env, hasWater: Pos -> bool, st: TickState)
    requires 0 <= i <= |order|
  {
    var done := Elements(order[..i]);
    && st.log == TickLog(Masses(before), order[..i], env)
    && st.pending == PendingOf(st.log)
    && Froms(st.log) <= done
    && st.cells == AgedCells(before, done, Froms(st.log))
    && st.changed == Mentioned(st.log)
    && st.waterContacts == Contacts(before, hasWater, done)
    && st.dirty == NeighborsOf(Froms(st.log))
    && st.deactivate == Stalled(before, done, Froms(st.log))
  }

  lemma StartsInProgress(before: map<Pos, LavaCell>, order: seq<Pos>, env: Env, hasWater: Pos -> bool)
    ensures InProgress(before, order, 0, env, hasWater, TickState(before, map[], {}, [], {}, {}, {}))
  {}

  /** At the end of the order the prefix is the whole order. */
  lemma ProgressDone(before: map<Pos, LavaCell>, order: seq<Pos>, env: Env, hasWater: Pos -> bool, st: TickState)
    requires InProgress(before, order, |order|, env, hasWater, st)
    ensures st.log == TickLog(Masses(before), order, env) && st.pending == PendingOf(st.log)
    ensures st.cells == AgedCells(before, Elements(order), Froms(st.log))
    ensures st.changed == Mentioned(st.log) && st.dirty == NeighborsOf(Froms(st.log))
    ensures st.waterContacts == Contacts(before, hasWater, Elements(order))
    ensures st.deactivate == Stalled(before, Elements(order), Froms(st.log))
  {
    assert order[..|order|] == order;
  }

  lemma TickApplied(before: map<Pos, LavaCell>, order: seq<Pos>, env: Env, log: seq<Transfer>)
    requires log == TickLog(Masses(before), order, env)
    ensures Apply(before, Op.Tick(order, env)) == Settled(AgedCells(before, Elements(order), Froms(log)), PendingOf(log))
  {}

  lemma TickLogNext(masses: map<Pos, real>, order: seq<Pos>, i: int, env: Env, f: FlowResult)
    requires 0 <= i < |order|
    requires f == FlowOf(Val(masses, order[i]),
                         CacheNeighborMasses(masses, PendingOf(TickLog(masses, order[..i], env)), order[i], env, MAX_MASS))
    ensures TickLog(masses, order[..i + 1], env) == TickLog(masses, order[..i], env) + CellLog(order[i], f, env)
  {
    assert order[..i + 1][..i] == order[..i];
  }

  lemma ProgressNext(before: map<Pos, LavaCell>, order: seq<Pos>, i: int, env: Env, hasWater: Pos -> bool, st: TickState, f: FlowResult)
    requires 0 <= i < |order| && Distinct(order) && InProgress(before, order, i, env, hasWater, st)
    requires f == FlowOf(Val(Masses(st.cells), order[i]),
                         CacheNeighborMasses(Masses(st.cells), PendingOf(st.log), order[i], env, MAX_MASS))
    ensures InProgress(before, order, i + 1, env, hasWater, NextState(st, order[i], f, env, hasWater))
  {
    var pos, done := order[i], Elements(order[..i]);
    assert pos !in order[..i];
    assert Elements(order[..i + 1]) == done + {pos};
    AgedKeepsMasses(before, done, Froms(st.log));
    TickLogNext(Masses(before), order, i, env, f);
    StateNext(before, done, pos, env, hasWater, st, f);
  }

  /** All parts of the state but the log, for any flow. */
  lemma StateNext(before: map<Pos, LavaCell>, done: set<Pos>, pos: Pos, env: Env, hasWater: Pos -> bool, st: TickState, f: FlowResult)
    requires pos !in done && Froms(st.log) <= done
    requires st.cells == AgedCells(before, done, Froms(st.log))
    requires st.changed == Mentioned(st.log) && st.dirty == NeighborsOf(Froms(st.log))
    requires st.waterContacts == Contacts(before, hasWater, done)
    requires st.deactivate == Stalled(before, done, Froms(st.log))
    ensures var st', done' := NextState(st, pos, f, env, hasWater), done + {pos};
            && Froms(st'.log) <= done'
            && st'.cells == AgedCells(before, done', Froms(st'.log))
            && st'.changed == Mentioned(st'.log) && st'.dirty == NeighborsOf(Froms(st'.log))
            && st'.waterContacts == Contacts(before, hasWater, done')
            && st'.deactivate == Stalled(before, done', Froms(st'.log))
  {
    ContactsNext(before, done, Froms(st.log), hasWater, pos);
    CellFroms(st.log, pos, f, env);
    MentionedAppend(st.log, CellLog(pos, f, env));
    AgedNext(before, done, Froms(st.log), pos, f);
    NeighborsOfUnion(Froms(st.log), pos);
  }

  /** The active set after a tick that started with `candidates` active. */
  ghost function ActiveAfterTick(candidates: set<Pos>, before: map<Pos, LavaCell>, cells: map<Pos, LavaCell>,
                                 order: seq<Pos>, log: seq<Transfer>): set<Pos>
  {
    ActiveAfter(candidates, before.Keys, cells.Keys, Mentioned(log)) - Stalled(before, Elements(order), Froms(log))
  }

  ghost predicate IsActivity(candidates: set<Pos>, before: map<Pos, LavaCell>, cells: map<Pos, LavaCell>,
                             order: seq<Pos>, log: seq<Transfer>, active: set<Pos>)
  {
    forall q :: q in active
                <==> IsActive(q in candidates, Get(before, q), q in order, q in Froms(log), q in Mentioned(log), q in cells)
  }

  lemma ActiveLaw(candidates: set<Pos>, before: map<Pos, LavaCell>, cells: map<Pos, LavaCell>, order: seq<Pos>, log: seq<Transfer>)
    ensures IsActivity(candidates, before, cells, order, log, ActiveAfterTick(candidates, before, cells, order, log))
  {}

  /** The first i flows, and what they leave. */
  ghost predicate Spreading(sides: seq<Side>, i: nat, start: real, average: real, flows: seq<real>, remaining: real)
    requires i <= |sides|
  {
    |flows| == i && flows + SideFlows(sides[i..], remaining, average) == SideFlows(sides, start, average)
  }

  lemma SpreadNext(sides: seq<Side>, i: nat, start: real, average: real, flows: seq<real>, remaining: real)
    requires i < |sides| && Spreading(sides, i, start, average, flows, remaining)
    ensures var flow := SideFlow(sides[i], remaining, average);
            Spreading(sides, i + 1, start, average, flows + [flow], remaining - flow)
  {
    var flow := SideFlow(sides[i], remaining, average);
    assert sides[i..][1..] == sides[i + 1..];
    assert SideFlows(sides[i..], remaining, average) == [flow] + SideFlows(sides[i + 1..], remaining - flow, average);
  }

  /** Every computed flow is zero or large enough to be recorded. */
  predicate NothingTiny(f: FlowResult) {
    forall a :: a in [f.down, f.posX, f.negX, f.posZ, f.negZ] ==> a == 0.0 || a > MIN_FLOW
  }

  lemma FlowIsNotTiny(mass: real, n: NeighborMasses)
    requires !(n.belowVoid && n.belowSolid)
    ensures FlowOf(mass, n).HasFlow() ==> NothingTiny(FlowOf(mass, n))
  {
    FlowIsSafe(mass, n);
  }

  lemma DirectionsAreOutflow(pos: Pos, f: FlowResult, env: Env)
    requires f.HasFlow() && NothingTiny(f)
    ensures IsOutflow(Directions(pos, f, env), pos, f.TotalOutflow())
    ensures forall t :: t in Directions(pos, f, env) ==> t.amount == 0.0 || t.amount > MIN_FLOW
  {
    DirectionsNotTiny(pos, f, env);
    DirectionsAmount(pos, f, env);
    SomePositive(pos, f, env);
  }

  lemma DirectionsNotTiny(pos: Pos, f: FlowResult, env: Env)
    requires NothingTiny(f)
    ensures forall t :: t in Directions(pos, f, env) ==> t.from == pos && (t.amount == 0.0 || t.amount > MIN_FLOW)
  {
    var amounts := [f.down, f.posX, f.negX, f.posZ, f.negZ];
    forall i | 0 <= i < 5
      ensures var t := Directions(pos, f, env)[i]; t.from == pos && t.amount == amounts[i] && amounts[i] in amounts
    {}
  }

  lemma SomePositive(pos: Pos, f: FlowResult, env: Env)
    requires f.HasFlow()
    ensures Positive(Directions(pos, f, env)) != []
  {}

  /** Processed cells without flow whose counter has reached the stability limit. */
  function Stalled(cells: map<Pos, LavaCell>, processed: set<Pos>, flowed: set<Pos>): set<Pos> {
    set p | p in processed && p !in flowed && p in cells && Aged(cells[p], false).stableTicks >= STABLE_AFTER
  }

  // ----- counters during a tick

  lemma AgedKeepsMasses(cells: map<Pos, LavaCell>, processed: set<Pos>, flowed: set<Pos>)
    ensures Masses(AgedCells(cells, processed, flowed)) == Masses(cells)
    ensures forall p :: p in cells ==> AgedCells(cells, processed, flowed)[p].HasLava() == cells[p].HasLava()
  {}

  lemma AgedNext(before: map<Pos, LavaCell>, done: set<Pos>, flowed: set<Pos>, pos: Pos, f: FlowResult)
    requires pos !in done && flowed <= done
    ensures var was, flowed' := AgedCells(before, done, flowed), if f.HasFlow() then flowed + {pos} else flowed;
            && AgedCells(before, done + {pos}, flowed') == Processed(was, pos, f)
            && Stalled(before, done + {pos}, flowed')
               == Stalled(before, done, flowed) + StalledNow(Processed(was, pos, f), pos, f)
  {}

  lemma ContactsNext(before: map<Pos, LavaCell>, done: set<Pos>, flowed: set<Pos>, hasWater: Pos -> bool, pos: Pos)
    ensures Contacts(before, hasWater, done + {pos})
            == Contacts(before, hasWater, done) + Contact(AgedCells(before, done, flowed), hasWater, pos)
  {}

  lemma CellFroms(log: seq<Transfer>, pos: Pos, f: FlowResult, env: Env)
    ensures Froms(log + CellLog(pos, f, env)) == if f.HasFlow() then Froms(log) + {pos} else Froms(log)
  {}

  // ----- settling position by position

  lemma SettledByPoints(before: map<Pos, LavaCell>, pending: map<Pos, real>, cells: map<Pos, LavaCell>)
    requires forall p :: Get(cells, p) == After(before, pending, p)
    ensures cells == Settled(before, pending)
  {
    forall p
      ensures Get(Settled(before, pending), p) == After(before, pending, p)
    {}
    assert forall p :: p in cells <==> Get(cells, p).Some?;
    assert forall p :: p in Settled(before, pending) <==> Get(Settled(before, pending), p).Some?;
    assert forall p :: p in cells ==> Get(cells, p) == Get(Settled(before, pending), p);
  }
}
