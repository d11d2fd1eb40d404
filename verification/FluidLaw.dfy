/** What both fluids share in their laws: the level at which a cell and its lower neighbours would be even. */
module FluidLaws {
  import opened Geometry
  import opened Ledger
  import opened Fluid
  import opened FluidTick

  predicate Lower(closed: bool, m: real, rest: real) {
    !closed && m < rest
  }

  function OneIf(b: bool): nat {
    if b then 1 else 0
  }

  function MassIf(b: bool, m: real): real {
    if b then m else 0.0
  }

  /** The number of open sides that hold less than the cell. */
  function Lowers(n: NeighborMasses, rest: real): nat {
    OneIf(Lower(n.posXSolid, n.posX, rest)) + OneIf(Lower(n.negXSolid, n.negX, rest))
    + OneIf(Lower(n.posZSolid, n.posZ, rest)) + OneIf(Lower(n.negZSolid, n.negZ, rest))
  }

  /** What the cell and those sides hold together. */
  function Together(n: NeighborMasses, rest: real): real {
    rest + MassIf(Lower(n.posXSolid, n.posX, rest), n.posX) + MassIf(Lower(n.negXSolid, n.negX, rest), n.negX)
    + MassIf(Lower(n.posZSolid, n.posZ, rest), n.posZ) + MassIf(Lower(n.negZSolid, n.negZ, rest), n.negZ)
  }

  /** The level at which the cell and its lower sides would be even. */
  predicate IsLevel(n: NeighborMasses, rest: real, average: real) {
    (1 + Lowers(n, rest)) as real * average == Together(n, rest)
  }

  lemma LevelIsUnique(n: NeighborMasses, rest: real, a: real, b: real)
    requires IsLevel(n, rest, a) && IsLevel(n, rest, b)
    ensures a == b
  {
    var k := (1 + Lowers(n, rest)) as real;
    assert k * (a - b) == 0.0;
  }

  lemma AverageIsLevel(n: NeighborMasses, rest: real)
    ensures IsLevel(n, rest, Average(Sides(n), rest)) && LowerCount(Sides(n), rest) == Lowers(n, rest)
  {
    SumsOfSides(n, rest);
    QuotientTimes(Together(n, rest), (1 + Lowers(n, rest)) as real);
  }

  lemma QuotientTimes(total: real, k: real)
    requires k > 0.0
    ensures k * (total / k) == total
  {}

  lemma SumsOfSides(n: NeighborMasses, rest: real)
    ensures rest + LowerMass(Sides(n), rest) == Together(n, rest) && LowerCount(Sides(n), rest) == Lowers(n, rest)
  {
    var s := Sides(n);
    var one, two, three := s[..1], s[..2], s[..3];
    assert one == [s[0]] && two == one + [s[1]] && three == two + [s[2]] && s == three + [s[3]];
    SumsNext([], s[0], rest);
    SumsNext(one, s[1], rest);
    SumsNext(two, s[2], rest);
    SumsNext(three, s[3], rest);
    assert [] + [s[0]] == one;
  }

  lemma SumsNext(sides: seq<Side>, s: Side, rest: real)
    ensures LowerMass(sides + [s], rest) == LowerMass(sides, rest) + MassIf(Lower(!s.open, s.mass, rest), s.mass)
    ensures LowerCount(sides + [s], rest) == LowerCount(sides, rest) + OneIf(Lower(!s.open, s.mass, rest))
  {
    assert (sides + [s])[..|sides|] == sides;
  }

  lemma NoLowerSides(n: NeighborMasses, rest: real)
    requires LowerCount(Sides(n), rest) == 0
    ensures !Lower(n.posXSolid, n.posX, rest) && !Lower(n.negXSolid, n.negX, rest)
    ensures !Lower(n.posZSolid, n.posZ, rest) && !Lower(n.negZSolid, n.negZ, rest)
  {
    SumsOfSides(n, rest);
  }

  // ----- what a cell sees of its neighbours

  /** What is seen at q: nothing behind a wall, else what is stored or shown there with what has flowed so far. */
  ghost predicate SeesAt(base: map<Pos, real>, log: seq<Transfer>, q: Pos, closed: bool, env: Env, full: real, m: real) {
    if closed then m == 0.0 else
      var there := (if q in base then base[q] else if env.hasWorldFluid(q) then full else 0.0) + Net(log, q);
      m == if there >= 0.0 then there else 0.0
  }

  /** The six neighbours as they are after a log. */
  ghost predicate Sees(base: map<Pos, real>, log: seq<Transfer>, p: Pos, env: Env, full: real, n: NeighborMasses) {
    && n.belowVoid == env.isOutOfBounds(Pos(p.x, p.y - 1, p.z))
    && n.belowSolid == (!n.belowVoid && env.isSolid(Pos(p.x, p.y - 1, p.z))) && n.aboveSolid == env.isSolid(Pos(p.x, p.y + 1, p.z))
    && n.posXSolid == env.isSolid(Pos(p.x + 1, p.y, p.z)) && n.negXSolid == env.isSolid(Pos(p.x - 1, p.y, p.z))
    && n.posZSolid == env.isSolid(Pos(p.x, p.y, p.z + 1)) && n.negZSolid == env.isSolid(Pos(p.x, p.y, p.z - 1))
    && SeesAt(base, log, Pos(p.x, p.y - 1, p.z), n.belowVoid || n.belowSolid, env, full, n.below)
    && SeesAt(base, log, Pos(p.x, p.y + 1, p.z), n.aboveSolid, env, full, n.above)
    && SeesAt(base, log, Pos(p.x + 1, p.y, p.z), n.posXSolid, env, full, n.posX)
    && SeesAt(base, log, Pos(p.x - 1, p.y, p.z), n.negXSolid, env, full, n.negX)
    && SeesAt(base, log, Pos(p.x, p.y, p.z + 1), n.posZSolid, env, full, n.posZ)
    && SeesAt(base, log, Pos(p.x, p.y, p.z - 1), n.negZSolid, env, full, n.negZ)
  }

  lemma SeenIsThere(base: map<Pos, real>, log: seq<Transfer>, q: Pos, closed: bool, env: Env, full: real)
    ensures SeesAt(base, log, q, closed, env, full, Seen(base, PendingOf(log), q, closed, env, full))
  {
    UnmentionedIsZero(log, q);
  }

  lemma CachedIsSeen(base: map<Pos, real>, log: seq<Transfer>, p: Pos, env: Env, full: real)
    ensures Sees(base, log, p, env, full, CacheNeighborMasses(base, PendingOf(log), p, env, full))
  {
    var n := CacheNeighborMasses(base, PendingOf(log), p, env, full);
    SeenIsThere(base, log, p.Plus(BELOW), n.belowVoid || n.belowSolid, env, full);
    SeenIsThere(base, log, p.Plus(ABOVE), n.aboveSolid, env, full);
    SeenIsThere(base, log, p.Plus(POS_X), n.posXSolid, env, full);
    SeenIsThere(base, log, p.Plus(NEG_X), n.negXSolid, env, full);
    SeenIsThere(base, log, p.Plus(POS_Z), n.posZSolid, env, full);
    SeenIsThere(base, log, p.Plus(NEG_Z), n.negZSolid, env, full);
  }

  // ----- what both laws speak of

  /** Fluid that leaves p for `to`, or is lost on the way. */
  predicate Departs(t: Transfer, p: Pos, to: Pos, lost: bool, amount: real) {
    t == Transfer(p, if lost then None else Some(to), amount)
  }

  /** Open, in range, and without fluid: neither a cell nor a block of it. */
  ghost predicate Free<T>(cells: map<Pos, T>, env: Env, q: Pos) {
    q !in cells && !env.isSolid(q) && !env.isOutOfBounds(q) && !env.hasWorldFluid(q)
  }

  /** The counter of a cell that was processed without flow, or not at all. */
  predicate IsOlder(before: nat, processed: bool, after: nat) {
    after == if !processed then before else if before < 255 then before + 1 else 255
  }

  // ----- inflow into a position from which nothing flows

  /** Flows out of one position change another by what they bring there: nothing, or more than the least of them. */
  lemma {:induction false} InflowIsMore(flows: seq<Transfer>, from: Pos, q: Pos, least: real)
    requires from != q && least >= 0.0 && forall t :: t in flows ==> t.from == from && (t.to.Some? ==> t.amount > least)
    ensures Net(flows, q) == 0.0 || Net(flows, q) > least
    ensures (exists t :: t in flows && t.to == Some(q)) ==> Net(flows, q) > least
  {
    if flows != [] {
      var rest, last := flows[..|flows| - 1], flows[|flows| - 1];
      InflowIsMore(rest, from, q, least);
      assert last in flows && flows == rest + [last];
      LogStep(rest, last, q);
      assert forall t :: t in flows <==> t in rest || t == last;
    }
  }

  /** Flows that move nothing do not count. */
  lemma {:induction false} PositiveCounts(flows: seq<Transfer>, q: Pos)
    requires forall t :: t in flows ==> t.amount >= 0.0
    ensures In(Positive(flows), q) == In(flows, q) && Out(Positive(flows), q) == Out(flows, q)
  {
    if flows != [] {
      var rest, last := flows[..|flows| - 1], flows[|flows| - 1];
      PositiveCounts(rest, q);
      assert last in flows;
      if last.amount > 0.0 {
        LogStep(Positive(rest), last, q);
      } else {
        assert Positive(flows) == Positive(rest);
      }
    }
  }
}
