/** When the flow of a cell is debited and not credited: the void below, and flows nudged to MIN_FLOW. */
module WaterLoss {
  import opened BlockTypes
  import opened Geometry
  import opened Ledger
  import opened Fluid
  import opened FluidTick
  import opened Water

  // ----- the guards of the sideways flow

  /** What the cell offers this side, if the side is lower: the share of the difference, before the nudge. */
  function Wanted(s: Side, average: real, rate: real): real {
    (average - s.mass) * rate
  }

  predicate IsLower(s: Side, remaining: real, average: real) {
    s.open && s.mass < remaining && s.mass < average
  }

  /** The guard that yields exactly MIN_FLOW: the share itself, or a smaller share nudged up. */
  predicate NudgedAt(s: Side, remaining: real, average: real, rate: real) {
    && IsLower(s, remaining, average)
    && ((Wanted(s, average, rate) == MIN_FLOW && remaining > MIN_FLOW)
        || (Wanted(s, average, rate) < MIN_FLOW && remaining > MIN_FLOW * 2.0))
  }

  /** The guard that yields more than MIN_FLOW. */
  predicate StrongAt(s: Side, remaining: real, average: real, rate: real) {
    IsLower(s, remaining, average) && Wanted(s, average, rate) > MIN_FLOW && remaining > Wanted(s, average, rate)
  }

  /** What is left for the next sides. */
  function Left(s: Side, remaining: real, average: real, rate: real): real {
    if NudgedAt(s, remaining, average, rate) then remaining - MIN_FLOW
    else if StrongAt(s, remaining, average, rate) then remaining - Wanted(s, average, rate)
    else remaining
  }

  predicate SomeNudged(sides: seq<Side>, remaining: real, average: real, rate: real) {
    sides != [] && (NudgedAt(sides[0], remaining, average, rate)
                    || SomeNudged(sides[1..], Left(sides[0], remaining, average, rate), average, rate))
  }

  predicate SomeStrong(sides: seq<Side>, remaining: real, average: real, rate: real) {
    sides != [] && (StrongAt(sides[0], remaining, average, rate)
                    || SomeStrong(sides[1..], Left(sides[0], remaining, average, rate), average, rate))
  }

  function LeftAfter(sides: seq<Side>, remaining: real, average: real, rate: real): real {
    if sides == [] then remaining else LeftAfter(sides[1..], Left(sides[0], remaining, average, rate), average, rate)
  }

  ghost predicate SomeAbove(flows: seq<real>) {
    exists a :: a in flows && a > MIN_FLOW
  }

  lemma {:induction false} GuardsTellFlows(sides: seq<Side>, remaining: real, average: real, rate: real)
    ensures var flows := SideFlows(sides, remaining, average, rate);
            && (SomeNudged(sides, remaining, average, rate) <==> MIN_FLOW in flows)
            && (SomeStrong(sides, remaining, average, rate) <==> SomeAbove(flows))
            && (forall a :: a in flows ==> a == 0.0 || a >= MIN_FLOW)
            && LeftAfter(sides, remaining, average, rate) == remaining - Sum(flows)
  {
    if sides != [] {
      var flow, left := SideFlow(sides[0], remaining, average, rate), Left(sides[0], remaining, average, rate);
      assert left == remaining - flow;
      GuardsTellFlows(sides[1..], left, average, rate);
      var rest := SideFlows(sides[1..], left, average, rate);
      assert SideFlows(sides, remaining, average, rate) == [flow] + rest;
      assert flow in [flow] + rest && forall a :: a in [flow] + rest <==> a == flow || a in rest;
      assert SomeAbove([flow] + rest) <==> flow > MIN_FLOW || SomeAbove(rest);
      assert ([flow] + rest)[1..] == rest;
    }
  }

  // ----- the condition on a cell

  /** What is left after the flow down spreads sideways. */
  predicate Spreads(rest: real, n: NeighborMasses) {
    rest > MIN_FLOW && LowerCount(Sides(n), rest) > 0
  }

  predicate Nudges(rest: real, t: WaterType, n: NeighborMasses) {
    Spreads(rest, n) && SomeNudged(Sides(n), rest, Average(Sides(n), rest), FlowRate(t))
  }

  predicate Strengthens(rest: real, t: WaterType, n: NeighborMasses) {
    Spreads(rest, n) && SomeStrong(Sides(n), rest, Average(Sides(n), rest), FlowRate(t))
  }

  function AfterSides(rest: real, t: WaterType, n: NeighborMasses): real {
    if Spreads(rest, n) then LeftAfter(Sides(n), rest, Average(Sides(n), rest), FlowRate(t)) else rest
  }

  /** Some flow is strong enough to be recorded: down, sideways, or up under pressure. */
  predicate Flows(mass: real, t: WaterType, n: NeighborMasses) {
    var rest := mass - DownFlow(mass, n);
    || DownFlow(mass, n) > 0.0
    || Strengthens(rest, t, n)
    || UpFlow(AfterSides(rest, t, n), n) > 0.0
  }

  /** Water in the cell drains into the void, or a side is nudged while the cell flows. */
  predicate LosesWater(mass: real, t: WaterType, n: NeighborMasses) {
    mass > MIN_MASS && (n.belowVoid || (Nudges(mass - DownFlow(mass, n), t, n) && Flows(mass, t, n)))
  }

  // ----- what is lost is what is not credited

  lemma {:induction false} LostIsZeroIff(log: seq<Transfer>)
    requires forall t :: t in log ==> t.amount > 0.0
    ensures Lost(log) >= 0.0 && (Lost(log) == 0.0 <==> forall t :: t in log ==> t.to.Some?)
  {
    if log != [] {
      var rest, last := log[..|log| - 1], log[|log| - 1];
      assert log == rest + [last];
      LostIsZeroIff(rest);
    }
  }

  predicate Arrives(t: Transfer) {
    t.amount > 0.0 ==> t.to.Some?
  }

  lemma AllArriveIff(all: seq<Transfer>)
    requires forall k :: 0 <= k < |all| ==> all[k].amount >= 0.0
    ensures Lost(Positive(all)) == 0.0 <==> forall k :: 0 <= k < |all| ==> Arrives(all[k])
  {
    LostIsZeroIff(Positive(all));
    assert forall k :: 0 <= k < |all| ==> all[k] in all;
  }

  lemma SixArrive(all: seq<Transfer>)
    requires |all| == 6
    ensures (forall k :: 0 <= k < 6 ==> Arrives(all[k]))
            <==> Arrives(all[0]) && Arrives(all[1]) && Arrives(all[2]) && Arrives(all[3]) && Arrives(all[4]) && Arrives(all[5])
  {}

  predicate Kept(amount: real) {
    amount == 0.0 || amount > MIN_FLOW
  }

  /** A flow is all credited exactly when every direction is zero or above MIN_FLOW, and none goes into the void. */
  lemma FlowIsCreditedIff(pos: Pos, f: FlowResult, belowVoid: bool)
    requires NoNegative(f) && f.HasFlow()
    ensures Lost(CellLog(pos, f, belowVoid)) == 0.0
            <==> && Kept(f.down) && Kept(f.up) && Kept(f.posX) && Kept(f.negX) && Kept(f.posZ) && Kept(f.negZ)
                 && (belowVoid ==> f.down == 0.0)
  {
    var all := Directions(pos, f, belowVoid);
    assert |all| == 6 && all[0].amount == f.down && all[1].amount == f.up && all[2].amount == f.posX
        && all[3].amount == f.negX && all[4].amount == f.posZ && all[5].amount == f.negZ;
    AllArriveIff(all);
    SixArrive(all);
    assert Arrives(all[0]) == (Kept(f.down) && (belowVoid ==> f.down == 0.0)) && Arrives(all[1]) == Kept(f.up);
    assert Arrives(all[2]) == Kept(f.posX) && Arrives(all[3]) == Kept(f.negX);
    assert Arrives(all[4]) == Kept(f.posZ) && Arrives(all[5]) == Kept(f.negZ);
  }

  lemma FourTold(flows: seq<real>, nudged: bool, strong: bool)
    requires |flows| == 4 && (nudged <==> MIN_FLOW in flows) && (strong <==> SomeAbove(flows))
    requires forall a :: a in flows ==> a == 0.0 || a >= MIN_FLOW
    ensures nudged <==> !(Kept(flows[0]) && Kept(flows[1]) && Kept(flows[2]) && Kept(flows[3]))
    ensures strong <==> flows[0] > MIN_FLOW || flows[1] > MIN_FLOW || flows[2] > MIN_FLOW || flows[3] > MIN_FLOW
  {
    assert flows[0] in flows && flows[1] in flows && flows[2] in flows && flows[3] in flows;
    assert forall a :: a in flows ==> a == flows[0] || a == flows[1] || a == flows[2] || a == flows[3];
  }

  lemma SidesTold(rest: real, t: WaterType, n: NeighborMasses)
    ensures var flows := SideFlowsOf(rest, n, t);
            && (Nudges(rest, t, n) <==> !(Kept(flows[0]) && Kept(flows[1]) && Kept(flows[2]) && Kept(flows[3])))
            && (Strengthens(rest, t, n)
                <==> flows[0] > MIN_FLOW || flows[1] > MIN_FLOW || flows[2] > MIN_FLOW || flows[3] > MIN_FLOW)
            && AfterSides(rest, t, n) == rest - Sum(flows)
  {
    var flows := SideFlowsOf(rest, n, t);
    if Spreads(rest, n) {
      GuardsTellFlows(Sides(n), rest, Average(Sides(n), rest), FlowRate(t));
      FourTold(flows, Nudges(rest, t, n), Strengthens(rest, t, n));
    } else {
      SumOfFour(flows);
    }
  }

  lemma FlowTold(mass: real, t: WaterType, n: NeighborMasses)
    ensures var f := FlowOf(mass, t, n);
            && NoNegative(f) && Kept(f.down) && Kept(f.up) && (mass <= MIN_MASS ==> f == NO_FLOW)
            && (mass > MIN_MASS ==>
                  && (Nudges(mass - DownFlow(mass, n), t, n)
                      <==> !(Kept(f.posX) && Kept(f.negX) && Kept(f.posZ) && Kept(f.negZ)))
                  && (Flows(mass, t, n) <==> f.HasFlow()) && (n.belowVoid ==> f.down == mass))
  {
    if mass > MIN_MASS {
      FlowIsSafe(mass, t, n);
      SidesTold(mass - DownFlow(mass, n), t, n);
    }
  }

  lemma CreditedIff(pos: Pos, f: FlowResult, belowVoid: bool, wet: bool, nudges: bool, flows: bool, loses: bool)
    requires NoNegative(f) && Kept(f.down) && Kept(f.up) && (wet && belowVoid ==> f.down > MIN_FLOW) && (!wet ==> f == NO_FLOW)
    requires wet ==> (nudges <==> !(Kept(f.posX) && Kept(f.negX) && Kept(f.posZ) && Kept(f.negZ))) && (flows <==> f.HasFlow())
    requires loses == (wet && (belowVoid || (nudges && flows)))
    ensures Lost(CellLog(pos, f, belowVoid)) == 0.0 <==> !loses
  {
    if f.HasFlow() {
      FlowIsCreditedIff(pos, f, belowVoid);
    }
  }

  lemma KeepsIff(pos: Pos, mass: real, t: WaterType, n: NeighborMasses, f: FlowResult, loses: bool)
    requires f == FlowOf(mass, t, n) && loses == LosesWater(mass, t, n)
    ensures Lost(CellLog(pos, f, n.belowVoid)) == 0.0 <==> !loses
  {
    FlowTold(mass, t, n);
    CreditedIff(pos, f, n.belowVoid, mass > MIN_MASS, Nudges(mass - DownFlow(mass, n), t, n), Flows(mass, t, n), loses);
  }

  /** The cell loses no water exactly when there is no void below, and no side is nudged while the cell flows. */
  lemma CellKeepsWaterIff(pos: Pos, mass: real, t: WaterType, n: NeighborMasses)
    ensures Lost(CellLog(pos, FlowOf(mass, t, n), n.belowVoid)) == 0.0 <==> !LosesWater(mass, t, n)
  {
    KeepsIff(pos, mass, t, n, FlowOf(mass, t, n), LosesWater(mass, t, n));
  }

  // ----- a whole tick

  /** No processed cell loses water, in the state in which its turn comes. */
  ghost predicate NoneLoses(cells: map<Pos, WaterCell>, order: seq<Pos>, env: Env) {
    order == [] ||
    var init, pos := order[..|order| - 1], order[|order| - 1];
    && NoneLoses(cells, init, env)
    && (var st := StateAfter(cells, init, env);
        !LosesWater(Val(Masses(st.cells), pos), TypeAt(st.cells, pos),
                    CacheNeighborMasses(Masses(st.cells), PendingOf(st.log), pos, env, MAX_MASS)))
  }

  lemma {:induction false} LostAppend(log: seq<Transfer>, flows: seq<Transfer>)
    ensures Lost(log + flows) == Lost(log) + Lost(flows)
  {
    if flows == [] {
      assert log + flows == log;
    } else {
      LostAppend(log, flows[..|flows| - 1]);
      assert (log + flows)[..|log + flows| - 1] == log + flows[..|flows| - 1];
    }
  }

  lemma LostOfCell(pos: Pos, mass: real, t: WaterType, n: NeighborMasses)
    ensures Lost(CellLog(pos, FlowOf(mass, t, n), n.belowVoid)) >= 0.0
  {
    CellLogIsSafe(pos, mass, t, n);
    LostIsZeroIff(CellLog(pos, FlowOf(mass, t, n), n.belowVoid));
  }

  /** A tick debits nothing that it does not credit, exactly when none of its cells loses water. */
  lemma {:induction false} TickLosesNothingIff(cells: map<Pos, WaterCell>, order: seq<Pos>, env: Env)
    ensures Lost(StateAfter(cells, order, env).log) >= 0.0
    ensures Lost(StateAfter(cells, order, env).log) == 0.0 <==> NoneLoses(cells, order, env)
  {
    if order != [] {
      var init, pos := order[..|order| - 1], order[|order| - 1];
      var st := StateAfter(cells, init, env);
      var mass, t := Val(Masses(st.cells), pos), TypeAt(st.cells, pos);
      var n := CacheNeighborMasses(Masses(st.cells), PendingOf(st.log), pos, env, MAX_MASS);
      TickLosesNothingIff(cells, init, env);
      CellKeepsWaterIff(pos, mass, t, n);
      LostOfCell(pos, mass, t, n);
      LostAppend(st.log, CellLog(pos, FlowOf(mass, t, n), n.belowVoid));
    }
  }

  // ----- the nudge at work

  /** A floor under half a block of water; open on two sides: one empty, one just below the average. */
  function ShelfCells(): map<Pos, WaterCell> {
    map[Pos(0, 1, 0) := WaterCell(0.5, false, 0, Ocean), Pos(-1, 1, 0) := WaterCell(0.2495, false, 0, Ocean)]
  }

  function ShelfEnv(): Env {
    Env(p => p != Pos(0, 1, 0) && p != Pos(1, 1, 0) && p != Pos(-1, 1, 0), (p: Pos) => p.y < 0, p => false)
  }

  /** Nothing flows into the void, yet the tick of one cell debits MIN_FLOW that nobody is credited with. */
  lemma NudgeLosesWater()
    ensures var pos, env := Pos(0, 1, 0), ShelfEnv();
            !env.isOutOfBounds(pos.Plus(BELOW)) && Lost(StateAfter(ShelfCells(), [pos], env).log) > 0.0
  {
    ShelfNeighbors();
    var n := NeighborMasses(0.0, 0.0, 0.0, 0.2495, 0.0, 0.0, false, true, true, false, false, true, true);
    ShelfLoses(n);
    OneLoses(ShelfCells(), Pos(0, 1, 0), ShelfEnv(), 0.5, Ocean, n, LosesWater(0.5, Ocean, n));
  }

  /** A tick of one cell that loses water. */
  lemma OneLoses(cells: map<Pos, WaterCell>, pos: Pos, env: Env, mass: real, t: WaterType, n: NeighborMasses, loses: bool)
    requires loses && loses == LosesWater(mass, t, n)
    requires mass == Val(Masses(cells), pos) && t == TypeAt(cells, pos)
    requires n == CacheNeighborMasses(Masses(cells), map[], pos, env, MAX_MASS)
    ensures Lost(StateAfter(cells, [pos], env).log) > 0.0
  {
    assert [pos][..0] == [] && PendingOf([]) == map[];
    assert !NoneLoses(cells, [pos], env);
    TickLosesNothingIff(cells, [pos], env);
  }

  lemma ShelfNeighbors()
    ensures CacheNeighborMasses(Masses(ShelfCells()), map[], Pos(0, 1, 0), ShelfEnv(), MAX_MASS)
            == NeighborMasses(0.0, 0.0, 0.0, 0.2495, 0.0, 0.0, false, true, true, false, false, true, true)
    ensures Val(Masses(ShelfCells()), Pos(0, 1, 0)) == 0.5 && TypeAt(ShelfCells(), Pos(0, 1, 0)) == Ocean
  {}

  lemma ShelfLoses(n: NeighborMasses)
    requires n == NeighborMasses(0.0, 0.0, 0.0, 0.2495, 0.0, 0.0, false, true, true, false, false, true, true)
    ensures LosesWater(0.5, Ocean, n)
  {
    var sides := Sides(n);
    assert sides[..3][..2] == sides[..2] && sides[..2][..1] == sides[..1] && sides[..1][..0] == [];
    assert LowerMass(sides[..1], 0.5) == 0.0 && LowerCount(sides[..1], 0.5) == 1;
    assert LowerMass(sides[..2], 0.5) == 0.2495 && LowerCount(sides[..2], 0.5) == 2;
    assert LowerMass(sides[..3], 0.5) == 0.2495 && LowerCount(sides[..3], 0.5) == 2;
    assert Average(sides, 0.5) == 0.7495 / 3.0;
    var average, rate := Average(sides, 0.5), FlowRate(Ocean);
    assert StrongAt(sides[0], 0.5, average, rate);
    assert NudgedAt(sides[1..][0], Left(sides[0], 0.5, average, rate), average, rate);
  }
}
