/**
 The lava simulation. One tick is a function of the cells, the processing order and the
 world: `TickLog` is the log of transfers it makes, and the class method is proved to apply
 exactly that log. The safety properties are then lemmas about `TickLog`, for every order.
 */
module Lava {
  import opened Geometry
  import opened Ledger
  import opened Fluid

  const MAX_MASS: real := 1.0
  const MIN_MASS: real := 0.01
  const MIN_FLOW: real := 0.02
  const FLOW_DAMPING: real := 0.25
  const STABLE_AFTER: nat := 15
  const MAX_TICKS: nat := 255

  datatype LavaCell = LavaCell(mass: real, isSource: bool, stableTicks: nat) {
    predicate HasLava() {
      mass > MIN_MASS
    }
  }

  datatype FlowResult = FlowResult(down: real, posX: real, negX: real, posZ: real, negZ: real) {
    predicate HasFlow() {
      down > MIN_FLOW || posX > MIN_FLOW || negX > MIN_FLOW || posZ > MIN_FLOW || negZ > MIN_FLOW
    }

    function TotalOutflow(): real {
      down + posX + negX + posZ + negZ
    }
  }

  const NO_FLOW: FlowResult := FlowResult(0.0, 0.0, 0.0, 0.0, 0.0)

  // ----- the flow of one cell

  /** Damped flow into an open neighbour below the average, as long as some mass remains. */
  function SideFlow(s: Side, remaining: real, average: real): real {
    var flow := (average - s.mass) * FLOW_DAMPING;
    if s.open && s.mass < remaining && s.mass < average && flow > MIN_FLOW && remaining > flow then flow else 0.0
  }

  function SideFlows(sides: seq<Side>, remaining: real, average: real): (flows: seq<real>)
    ensures |flows| == |sides|
  {
    if sides == [] then [] else
      var flow := SideFlow(sides[0], remaining, average);
      [flow] + SideFlows(sides[1..], remaining - flow, average)
  }

  function DownFlow(mass: real, n: NeighborMasses): real {
    if n.belowVoid then mass
    else if n.belowSolid || MAX_MASS - n.below <= MIN_FLOW then 0.0
    else
      var flow := Min(mass, MAX_MASS - n.below) * FLOW_DAMPING;
      if flow > MIN_FLOW then flow else 0.0
  }

  /** Down first, fully into the void; sideways only over a solid floor; never up. */
  function FlowOf(mass: real, n: NeighborMasses): FlowResult {
    if mass <= MIN_MASS then NO_FLOW else
      var down := DownFlow(mass, n);
      var remaining := mass - down;
      if remaining > MIN_FLOW && n.belowSolid && LowerCount(Sides(n), remaining) > 0 then
        var flows := SideFlows(Sides(n), remaining, Average(Sides(n), remaining));
        FlowResult(down, flows[0], flows[1], flows[2], flows[3])
      else
        FlowResult(down, 0.0, 0.0, 0.0, 0.0)
  }

  /** A side flow moves a neighbour towards the average without passing it, and leaves something behind. */
  lemma {:induction false} SideFlowsSafe(sides: seq<Side>, remaining: real, average: real)
    requires remaining >= 0.0
    ensures var flows := SideFlows(sides, remaining, average);
            && 0.0 <= Sum(flows) <= remaining
            && forall i :: 0 <= i < |flows| ==>
                 flows[i] == 0.0 ||
                 (flows[i] > MIN_FLOW && sides[i].open && sides[i].mass + flows[i] <= average)
  {
    if sides != [] {
      var s, flows := sides[0], SideFlows(sides, remaining, average);
      if flows[0] != 0.0 {
        SideFlowsSafe(sides[1..], remaining - flows[0], average);
      } else {
        SideFlowsSafe(sides[1..], remaining, average);
      }
      assert flows[1..] == SideFlows(sides[1..], remaining - flows[0], average);
    }
  }

  predicate SafeAmount(amount: real, open: bool, target: real, bound: real) {
    amount == 0.0 || (amount > MIN_FLOW && open && target + amount <= bound)
  }

  /** What a flow may do: move no more than the cell has, only into open neighbours, never above MAX_MASS or itself. */
  ghost predicate SafeFlow(mass: real, n: NeighborMasses, f: FlowResult) {
    && 0.0 <= f.TotalOutflow() <= Max(mass, 0.0)
    && (if n.belowVoid then f.down == (if mass > MIN_MASS then mass else 0.0)
        else SafeAmount(f.down, !n.belowSolid, n.below, MAX_MASS))
    && (f.down != 0.0 || !n.belowSolid ==> f.posX == f.negX == f.posZ == f.negZ == 0.0)
    && SafeAmount(f.posX, !n.posXSolid, n.posX, mass)
    && SafeAmount(f.negX, !n.negXSolid, n.negX, mass)
    && SafeAmount(f.posZ, !n.posZSolid, n.posZ, mass)
    && SafeAmount(f.negZ, !n.negZSolid, n.negZ, mass)
  }

  lemma FlowIsSafe(mass: real, n: NeighborMasses)
    requires !(n.belowVoid && n.belowSolid)
    ensures SafeFlow(mass, n, FlowOf(mass, n))
  {
    if mass > MIN_MASS {
      var down := DownFlow(mass, n);
      var remaining := mass - down;
      if remaining > MIN_FLOW && n.belowSolid && LowerCount(Sides(n), remaining) > 0 {
        var average := Average(Sides(n), remaining);
        var flows := SideFlows(Sides(n), remaining, average);
        AverageBelow(Sides(n), remaining);
        SideFlowsSafe(Sides(n), remaining, average);
        SumOfFour(flows);
      }
    }
  }

  // ----- the log of a tick

  function Masses(cells: map<Pos, LavaCell>): map<Pos, real> {
    map p | p in cells :: cells[p].mass
  }

  /** The five directions of a flow; a flow out of bounds is lost. */
  function Directions(pos: Pos, f: FlowResult, env: Env): seq<Transfer> {
    [Flow(pos, BELOW, env.isOutOfBounds(pos.Plus(BELOW)), f.down),
     Flow(pos, POS_X, env.isOutOfBounds(pos.Plus(POS_X)), f.posX),
     Flow(pos, NEG_X, env.isOutOfBounds(pos.Plus(NEG_X)), f.negX),
     Flow(pos, POS_Z, env.isOutOfBounds(pos.Plus(POS_Z)), f.posZ),
     Flow(pos, NEG_Z, env.isOutOfBounds(pos.Plus(NEG_Z)), f.negZ)]
  }

  function CellLog(pos: Pos, f: FlowResult, env: Env): seq<Transfer> {
    if f.HasFlow() then Positive(Directions(pos, f, env)) else []
  }

  /** Cells processed later see the pending deltas of those before. `masses` does not change during a tick. */
  ghost function TickLog(masses: map<Pos, real>, order: seq<Pos>, env: Env): seq<Transfer> {
    if order == [] then [] else
      var before, pos := TickLog(masses, order[..|order| - 1], env), order[|order| - 1];
      before + CellLog(pos, FlowOf(Val(masses, pos), CacheNeighborMasses(masses, PendingOf(before), pos, env, MAX_MASS)), env)
  }

  // ----- safety of the log, for every order

  ghost predicate NonNegative(masses: map<Pos, real>) {
    forall p :: p in masses ==> masses[p] >= 0.0
  }

  ghost predicate Bounded(masses: map<Pos, real>) {
    forall p :: p in masses ==> MIN_MASS < masses[p] <= MAX_MASS
  }

  /** A recorded flow out of a cell of this mass: large enough, and into an open neighbour with room. */
  predicate SafeTransfer(pos: Pos, mass: real, n: NeighborMasses, t: Transfer) {
    && t.from == pos
    && t.amount > MIN_FLOW
    && match t.to
       case None => true
       case Some(q) =>
         if q == pos.Plus(BELOW) then !n.belowVoid && !n.belowSolid && n.below + t.amount <= MAX_MASS
         else if q == pos.Plus(POS_X) then !n.posXSolid && n.posX + t.amount <= mass
         else if q == pos.Plus(NEG_X) then !n.negXSolid && n.negX + t.amount <= mass
         else if q == pos.Plus(POS_Z) then !n.posZSolid && n.posZ + t.amount <= mass
         else q == pos.Plus(NEG_Z) && !n.negZSolid && n.negZ + t.amount <= mass
  }

  lemma DirectionIsSafe(pos: Pos, mass: real, n: NeighborMasses, f: FlowResult, env: Env, t: Transfer)
    requires n.belowVoid == env.isOutOfBounds(pos.Plus(BELOW)) && SafeFlow(mass, n, f)
    requires f.HasFlow() && t in Directions(pos, f, env) && t.amount > 0.0
    ensures SafeTransfer(pos, mass, n, t)
  {}

  lemma DirectionsDistinct(pos: Pos, f: FlowResult, env: Env)
    ensures TargetsDistinct(Directions(pos, f, env))
  {}

  lemma DirectionsAmount(pos: Pos, f: FlowResult, env: Env)
    ensures Amount(Directions(pos, f, env)) == f.TotalOutflow()
  {
    var all := Directions(pos, f, env);
    assert all[..4][..3] == all[..3] && all[..3][..2] == all[..2] && all[..2][..1] == all[..1] && all[..1][..0] == [];
    assert Amount(all[..1]) == f.down;
    assert Amount(all[..2]) == f.down + f.posX;
    assert Amount(all[..3]) == f.down + f.posX + f.negX;
    assert Amount(all[..4]) == f.down + f.posX + f.negX + f.posZ;
  }

  /** Every transfer of one cell goes to a neighbour with room. */
  lemma CellFlowsAreSafe(pos: Pos, mass: real, n: NeighborMasses, f: FlowResult, env: Env)
    requires n.belowVoid == env.isOutOfBounds(pos.Plus(BELOW)) && SafeFlow(mass, n, f)
    ensures forall t :: t in CellLog(pos, f, env) ==> SafeTransfer(pos, mass, n, t)
  {
    forall t | t in CellLog(pos, f, env) {
      DirectionIsSafe(pos, mass, n, f, env, t);
    }
  }

  lemma CellLogAmount(pos: Pos, f: FlowResult, env: Env)
    requires f.down >= 0.0 && f.posX >= 0.0 && f.negX >= 0.0 && f.posZ >= 0.0 && f.negZ >= 0.0
    ensures Amount(CellLog(pos, f, env)) == (if f.HasFlow() then f.TotalOutflow() else 0.0)
  {
    if f.HasFlow() {
      var all := Directions(pos, f, env);
      PositiveAmount(all);
      DirectionsAmount(pos, f, env);
    }
  }

  lemma CellLogDistinct(pos: Pos, f: FlowResult, env: Env)
    ensures TargetsDistinct(CellLog(pos, f, env))
  {
    if f.HasFlow() {
      DirectionsDistinct(pos, f, env);
      PositiveDistinct(Directions(pos, f, env));
    }
  }

  /** The transfers of one cell add up to its outflow and go to distinct neighbours with room. */
  lemma CellLogIsSafe(pos: Pos, mass: real, n: NeighborMasses, f: FlowResult, env: Env)
    requires n.belowVoid == env.isOutOfBounds(pos.Plus(BELOW)) && SafeFlow(mass, n, f)
    ensures var flows := CellLog(pos, f, env);
            && (forall t :: t in flows ==> SafeTransfer(pos, mass, n, t))
            && Amount(flows) == (if f.HasFlow() then f.TotalOutflow() else 0.0)
            && TargetsDistinct(flows)
  {
    CellFlowsAreSafe(pos, mass, n, f, env);
    CellLogAmount(pos, f, env);
    CellLogDistinct(pos, f, env);
  }

  /**
   The documented full drain into the void: it happens exactly above MIN_FLOW. A thinner cell computes
   the outflow but the tick does not record it, so it hangs over the void.
   */
  lemma VoidDrainIff(pos: Pos, mass: real, n: NeighborMasses, env: Env)
    requires n.belowVoid && env.isOutOfBounds(pos.Plus(BELOW)) && mass > MIN_MASS
    ensures FlowOf(mass, n).down == mass
    ensures CellLog(pos, FlowOf(mass, n), env) == (if mass > MIN_FLOW then [Transfer(pos, None, mass)] else [])
  {
    var f := FlowOf(mass, n);
    assert f == FlowResult(mass, 0.0, 0.0, 0.0, 0.0);
    if mass > MIN_FLOW {
      var all := Directions(pos, f, env);
      assert all[..4][..3] == all[..3] && all[..3][..2] == all[..2] && all[..2][..1] == all[..1] && all[..1][..0] == [];
      assert Positive(all[..1]) == [all[0]];
      assert Positive(all[..2]) == [all[0]];
      assert Positive(all[..3]) == [all[0]];
      assert Positive(all[..4]) == [all[0]];
    }
  }

  /** Room as cached is room in truth: the cached mass of an open neighbour is at least what is there. */
  lemma RoomIsReal(base: map<Pos, real>, log: seq<Transfer>, pos: Pos, env: Env, mass: real, t: Transfer)
    requires SafeTransfer(pos, mass, CacheNeighborMasses(base, PendingOf(log), pos, env, MAX_MASS), t) && t.to.Some?
    requires mass <= MAX_MASS
    ensures t.to.value != pos && Val(base, t.to.value) + Net(log, t.to.value) + t.amount <= MAX_MASS
  {
    EffectiveIsAbove(base, log, t.to.value, env.hasWorldFluid(t.to.value), MAX_MASS);
  }

  /** The transfers of one cell keep the log safe. */
  lemma SafeCell(base: map<Pos, real>, log: seq<Transfer>, done: set<Pos>, pos: Pos, env: Env)
    requires SafeLog(base, log, done) && pos !in done
    requires NonNegative(base)
    ensures var f := FlowOf(Val(base, pos), CacheNeighborMasses(base, PendingOf(log), pos, env, MAX_MASS));
            && SafeLog(base, log + CellLog(pos, f, env), done + {pos})
            && (NeverOver(base, log, MAX_MASS) ==> NeverOver(base, log + CellLog(pos, f, env), MAX_MASS))
  {
    var mass, n := Val(base, pos), CacheNeighborMasses(base, PendingOf(log), pos, env, MAX_MASS);
    var f := FlowOf(mass, n);
    var flows := CellLog(pos, f, env);
    FlowIsSafe(mass, n);
    CellLogIsSafe(pos, mass, n, f, env);
    AppendSafe(base, log, done + {pos}, pos, flows);
    if NeverOver(base, log, MAX_MASS) {
      assert log[..0] == [];
      assert Val(base, pos) + Net(log[..0], pos) <= MAX_MASS;
      forall t | t in flows && t.to.Some?
        ensures t.to != Some(pos) && Val(base, t.to.value) + Net(log, t.to.value) + t.amount <= MAX_MASS
      {
        RoomIsReal(base, log, pos, env, mass, t);
      }
      AppendBounded(base, log, pos, flows, MAX_MASS);
    }
  }

  lemma NothingIsSafe(base: map<Pos, real>)
    requires NonNegative(base)
    ensures SafeLog(base, [], {}) && (Bounded(base) ==> NeverOver(base, [], MAX_MASS))
  {}

  /** At every moment of a tick, at every position: never below zero, and never above MAX_MASS if it started so. */
  lemma {:induction false} TickLogIsSafe(masses: map<Pos, real>, order: seq<Pos>, env: Env)
    requires NonNegative(masses) && Distinct(order)
    ensures SafeLog(masses, TickLog(masses, order, env), Elements(order))
    ensures Bounded(masses) ==> NeverOver(masses, TickLog(masses, order, env), MAX_MASS)
  {
    if order == [] {
      NothingIsSafe(masses);
    } else {
      var rest, pos := order[..|order| - 1], order[|order| - 1];
      TickLogIsSafe(masses, rest, env);
      assert pos !in rest;
      SafeCell(masses, TickLog(masses, rest, env), Elements(rest), pos, env);
      assert Elements(order) == Elements(rest) + {pos};
    }
  }

  // ----- settling: applying the pending deltas

  /** One pending delta: sources ignore it, a cell with MIN_MASS or less is dropped, a new cell needs more than that. */
  function Settle(cell: Option<LavaCell>, delta: real): Option<LavaCell> {
    match cell
    case None => if delta > MIN_MASS then Some(LavaCell(delta, false, 0)) else None
    case Some(c) =>
      if c.isSource then cell else
        var mass := Max(c.mass + delta, 0.0);
        if mass <= MIN_MASS then None else Some(LavaCell(mass, false, 0))
  }

  function After(cells: map<Pos, LavaCell>, pending: map<Pos, real>, p: Pos): Option<LavaCell> {
    if p in pending then Settle(Get(cells, p), pending[p]) else Get(cells, p)
  }

  function Settled(cells: map<Pos, LavaCell>, pending: map<Pos, real>): map<Pos, LavaCell> {
    map p | p in cells.Keys + pending.Keys && After(cells, pending, p).Some? :: After(cells, pending, p).value
  }

  function Sources(cells: map<Pos, LavaCell>): set<Pos> {
    set p | p in cells && cells[p].isSource
  }

  function NonSource(cells: map<Pos, LavaCell>): map<Pos, real> {
    map p | p in cells && !cells[p].isSource :: cells[p].mass
  }

  /** What settling throws away: the residue of cells at or below MIN_MASS. */
  ghost function Dust(cells: map<Pos, LavaCell>, log: seq<Transfer>): map<Pos, real> {
    map p | p in Mentioned(log) - Sources(cells) && Val(Masses(cells), p) + Net(log, p) <= MIN_MASS ::
      Val(Masses(cells), p) + Net(log, p)
  }

  /** Settling, position by position: nothing but dust is lost, and the clamp at zero never acts. */
  lemma SettledMass(cells: map<Pos, LavaCell>, log: seq<Transfer>, done: set<Pos>, p: Pos)
    requires SafeLog(Masses(cells), log, done) && p !in Sources(cells)
    ensures var after := Settled(cells, PendingOf(log));
            && Val(NonSource(after), p) == Val(NonSource(cells), p) + Net(log, p) - Val(Dust(cells, log), p)
            && 0.0 <= Val(Dust(cells, log), p) <= MIN_MASS
            && (p in after ==> !after[p].isSource)
  {
    UnmentionedIsZero(log, p);
    assert log[..|log|] == log;
    assert Val(Masses(cells), p) + Net(log[..|log|], p) >= 0.0;
  }

  /** The accounting for any safe log. */
  lemma SettledBalance(cells: map<Pos, LavaCell>, log: seq<Transfer>, done: set<Pos>)
    requires SafeLog(Masses(cells), log, done)
    ensures var after, sources := Settled(cells, PendingOf(log)), Sources(cells);
            && Sources(after) == sources
            && Total(NonSource(after)) == Total(NonSource(cells)) + DebitedFrom(log, sources) - CreditedTo(log, sources)
                                          - Lost(log) - Total(Dust(cells, log))
            && forall p :: p in Dust(cells, log) ==> 0.0 <= Dust(cells, log)[p] <= MIN_MASS
  {
    var after, sources, dust := Settled(cells, PendingOf(log)), Sources(cells), Dust(cells, log);
    forall p | p !in sources
      ensures Val(NonSource(after), p) == Val(NonSource(cells), p) + Net(log, p) - Val(dust, p)
      ensures p in dust ==> 0.0 <= dust[p] <= MIN_MASS
      ensures p !in Sources(after)
    {
      SettledMass(cells, log, done, p);
    }
    forall p | p in sources
      ensures p in Sources(after) && p !in NonSource(after)
    {
      assert After(cells, PendingOf(log), p) == Get(cells, p);
    }
    Balance(NonSource(cells), NonSource(after), dust, log, sources);
  }

  /** The mass accounting of a tick, for every processing order: exact, with dust the only unexplained loss. */
  lemma MassAccounting(cells: map<Pos, LavaCell>, order: seq<Pos>, env: Env)
    requires NonNegative(Masses(cells)) && Distinct(order)
    ensures var log := TickLog(Masses(cells), order, env);
            var after, sources := Settled(cells, PendingOf(log)), Sources(cells);
            && Sources(after) == sources
            && Total(NonSource(after)) == Total(NonSource(cells)) + DebitedFrom(log, sources) - CreditedTo(log, sources)
                                          - Lost(log) - Total(Dust(cells, log))
            && forall p :: p in Dust(cells, log) ==> 0.0 <= Dust(cells, log)[p] <= MIN_MASS
  {
    TickLogIsSafe(Masses(cells), order, env);
    SettledBalance(cells, TickLog(Masses(cells), order, env), Elements(order));
  }

  lemma SettledBound(cells: map<Pos, LavaCell>, log: seq<Transfer>)
    requires Bounded(Masses(cells)) && NeverOver(Masses(cells), log, MAX_MASS)
    ensures Bounded(Masses(Settled(cells, PendingOf(log))))
  {
    var after := Settled(cells, PendingOf(log));
    forall p | p in after
      ensures MIN_MASS < after[p].mass <= MAX_MASS
    {
      assert log[..|log|] == log;
      assert Val(Masses(cells), p) + Net(log[..|log|], p) <= MAX_MASS;
    }
  }

  /** The bound is kept by a tick: every surviving cell is in (MIN_MASS, MAX_MASS]. */
  lemma TickKeepsBound(cells: map<Pos, LavaCell>, order: seq<Pos>, env: Env)
    requires Bounded(Masses(cells)) && Distinct(order)
    ensures Bounded(Masses(Settled(cells, PendingOf(TickLog(Masses(cells), order, env)))))
  {
    TickLogIsSafe(Masses(cells), order, env);
    SettledBound(cells, TickLog(Masses(cells), order, env));
  }

  // ----- every operation on the cells, and runs of them

  /** The stability counter of a processed cell. */
  function Aged(c: LavaCell, flowed: bool): LavaCell {
    c.(stableTicks := if flowed then 0 else if c.stableTicks < MAX_TICKS then c.stableTicks + 1 else MAX_TICKS)
  }

  function AgedCells(cells: map<Pos, LavaCell>, processed: set<Pos>, flowed: set<Pos>): map<Pos, LavaCell> {
    map p | p in cells :: if p in processed then Aged(cells[p], p in flowed) else cells[p]
  }

  datatype Op =
    | Set(pos: Pos, mass: real, isSource: bool)
    | Add(pos: Pos, amount: real)
    | Remove(pos: Pos, amount: real)
    | RemoveSource(pos: Pos)
    | BlockPlaced(pos: Pos)
    | SyncWorldLava(pos: Pos)
    | Tick(order: seq<Pos>, env: Env)

  /** The cells after one operation. */
  ghost function Apply(cells: map<Pos, LavaCell>, op: Op): map<Pos, LavaCell> {
    match op
    case Set(pos, mass, isSource) =>
      if mass <= MIN_MASS && !isSource then cells - {pos}
      else cells[pos := LavaCell(if isSource then MAX_MASS else mass, isSource, 0)]
    case Add(pos, amount) =>
      if amount <= 0.0 then cells else
        var c := if pos in cells then cells[pos] else LavaCell(0.0, false, 0);
        cells[pos := LavaCell(c.mass + amount, c.isSource, 0)]
    case Remove(pos, amount) =>
      if pos !in cells || cells[pos].isSource then cells else
        var left := cells[pos].mass - Min(amount, cells[pos].mass);
        if left <= MIN_MASS then cells - {pos} else cells[pos := LavaCell(left, false, 0)]
    case RemoveSource(pos) =>
      if pos in cells then cells[pos := LavaCell(cells[pos].mass, false, 0)] else cells
    case BlockPlaced(pos) => cells - {pos}
    case SyncWorldLava(pos) =>
      if pos in cells then cells else cells[pos := LavaCell(MAX_MASS, false, 0)]
    case Tick(order, env) =>
      var log := TickLog(Masses(cells), order, env);
      Settled(AgedCells(cells, Elements(order), Froms(log)), PendingOf(log))
  }

  /** What a caller can check before the call: the amounts that respect the bound. */
  predicate Respects(cells: map<Pos, LavaCell>, op: Op) {
    match op
    case Set(pos, mass, isSource) => isSource || mass <= MAX_MASS
    case Add(pos, amount) =>
      amount <= 0.0 || MIN_MASS < (if pos in cells then cells[pos].mass else 0.0) + amount <= MAX_MASS
    case Remove(pos, amount) => pos !in cells || cells[pos].isSource || cells[pos].mass - amount <= MAX_MASS
    case _ => true
  }

  ghost predicate WellFormed(op: Op) {
    op.Tick? ==> Distinct(op.order)
  }

  /** An operation keeps the bound exactly when its amounts respect it; a tick always does. */
  lemma BoundKeptIff(cells: map<Pos, LavaCell>, op: Op)
    requires Bounded(Masses(cells)) && WellFormed(op)
    ensures Bounded(Masses(Apply(cells, op))) <==> Respects(cells, op)
  {
    if op.Tick? {
      var log := TickLog(Masses(cells), op.order, op.env);
      AgedSettle(cells, Elements(op.order), Froms(log), PendingOf(log));
      TickKeepsBound(cells, op.order, op.env);
    } else {
      assert op.pos in cells ==> MIN_MASS < Masses(cells)[op.pos] <= MAX_MASS;
      BoundAtPoint(Masses(cells), Masses(Apply(cells, op)), op.pos);
    }
  }

  lemma BoundAtPoint(before: map<Pos, real>, after: map<Pos, real>, pos: Pos)
    requires Bounded(before) && forall p :: p in after && p != pos ==> p in before && after[p] == before[p]
    ensures Bounded(after) <==> (pos in after ==> MIN_MASS < after[pos] <= MAX_MASS)
  {}

  /** Stability counters do not influence masses. */
  lemma AgedSettle(cells: map<Pos, LavaCell>, processed: set<Pos>, flowed: set<Pos>, pending: map<Pos, real>)
    ensures Masses(AgedCells(cells, processed, flowed)) == Masses(cells)
    ensures Masses(Settled(AgedCells(cells, processed, flowed), pending)) == Masses(Settled(cells, pending))
    ensures NonSource(Settled(AgedCells(cells, processed, flowed), pending)) == NonSource(Settled(cells, pending))
  {
    var aged := AgedCells(cells, processed, flowed);
    forall p
      ensures After(aged, pending, p).Some? == After(cells, pending, p).Some?
      ensures After(aged, pending, p).Some? ==> After(aged, pending, p).value.mass == After(cells, pending, p).value.mass
      ensures After(aged, pending, p).Some? ==> After(aged, pending, p).value.isSource == After(cells, pending, p).value.isSource
    {}
  }

  ghost function Run(cells: map<Pos, LavaCell>, ops: seq<Op>): map<Pos, LavaCell> {
    if ops == [] then cells else Apply(Run(cells, ops[..|ops| - 1]), ops[|ops| - 1])
  }

  /** The bound is an invariant of every run of operations whose amounts respect it. */
  lemma {:induction false} BoundOverRun(ops: seq<Op>)
    requires forall i :: 0 <= i < |ops| ==> WellFormed(ops[i]) && Respects(Run(map[], ops[..i]), ops[i])
    ensures Bounded(Masses(Run(map[], ops)))
  {
    if ops != [] {
      var rest := ops[..|ops| - 1];
      forall i | 0 <= i < |rest|
        ensures WellFormed(rest[i]) && Respects(Run(map[], rest[..i]), rest[i])
      {
        assert rest[..i] == ops[..i] && rest[i] == ops[i];
      }
      BoundOverRun(rest);
      BoundKeptIff(Run(map[], rest), ops[|ops| - 1]);
    }
  }

  lemma NonNegativeAtPoint(before: map<Pos, real>, after: map<Pos, real>, pos: Pos)
    requires NonNegative(before) && forall p :: p in after && p != pos ==> p in before && after[p] == before[p]
    requires pos in after ==> after[pos] >= 0.0
    ensures NonNegative(after)
  {}

  lemma SettledNonNegative(cells: map<Pos, LavaCell>, pending: map<Pos, real>)
    requires NonNegative(Masses(cells))
    ensures NonNegative(Masses(Settled(cells, pending)))
  {
    forall p | p in Settled(cells, pending)
      ensures Settled(cells, pending)[p].mass >= 0.0
    {
      assert p in cells ==> Masses(cells)[p] >= 0.0;
    }
  }

  lemma NonNegativeKept(cells: map<Pos, LavaCell>, op: Op)
    requires NonNegative(Masses(cells))
    ensures NonNegative(Masses(Apply(cells, op)))
  {
    if op.Tick? {
      var log := TickLog(Masses(cells), op.order, op.env);
      AgedSettle(cells, Elements(op.order), Froms(log), PendingOf(log));
      SettledNonNegative(cells, PendingOf(log));
    } else {
      assert op.pos in cells ==> Masses(cells)[op.pos] >= 0.0;
      NonNegativeAtPoint(Masses(cells), Masses(Apply(cells, op)), op.pos);
    }
  }

  /** The accounting and the bound for the tick as an operation, stability counters included. */
  lemma AppliedTickAccounts(cells: map<Pos, LavaCell>, order: seq<Pos>, env: Env)
    requires NonNegative(Masses(cells)) && Distinct(order)
    ensures var log := TickLog(Masses(cells), order, env);
            Total(NonSource(Apply(cells, Op.Tick(order, env))))
            == Total(NonSource(cells)) + DebitedFrom(log, Sources(cells)) - CreditedTo(log, Sources(cells))
               - Lost(log) - Total(Dust(cells, log))
    ensures Bounded(Masses(cells)) ==> Bounded(Masses(Apply(cells, Op.Tick(order, env))))
  {
    var log := TickLog(Masses(cells), order, env);
    MassAccounting(cells, order, env);
    AgedSettle(cells, Elements(order), Froms(log), PendingOf(log));
    if Bounded(Masses(cells)) {
      TickKeepsBound(cells, order, env);
    }
  }

  /** No operation, whatever its amounts, makes a mass negative: the accounting applies to every reachable state. */
  lemma {:induction false} NonNegativeOverRun(ops: seq<Op>)
    ensures NonNegative(Masses(Run(map[], ops)))
  {
    if ops != [] {
      NonNegativeOverRun(ops[..|ops| - 1]);
      NonNegativeKept(Run(map[], ops[..|ops| - 1]), ops[|ops| - 1]);
    }
  }
}
