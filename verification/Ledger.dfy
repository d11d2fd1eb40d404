/**
 Mass accounting for the fluid simulations. A tick is summarised by a log of transfers; a transfer
 without a destination is debited and never credited (void, out of bounds, or a flow too small
 to be recorded). Sums over cells are sums over maps, independent of any iteration order.
 */
module Ledger {
  import opened Geometry

  datatype Transfer = Transfer(from: Pos, to: Option<Pos>, amount: real)

  /** The value at p, 0 where the sparse map has no entry. */
  function Val(m: map<Pos, real>, p: Pos): real {
    if p in m then m[p] else 0.0
  }

  // ----- totals

  ghost function Total(m: map<Pos, real>): real {
    if m == map[] then 0.0 else
      var k :| k in m;
      m[k] + Total(m - {k})
  }

  /** Any key may be counted first. */
  lemma {:induction false} TotalPick(m: map<Pos, real>, k: Pos)
    requires k in m
    ensures Total(m) == m[k] + Total(m - {k})
  {
    var j :| j in m && Total(m) == m[j] + Total(m - {j});
    if j != k {
      TotalPick(m - {j}, k);
      TotalPick(m - {k}, j);
      assert m - {j} - {k} == m - {k} - {j};
    }
  }

  lemma {:induction false} TotalAdd(a: map<Pos, real>, b: map<Pos, real>, c: map<Pos, real>)
    requires a.Keys == b.Keys == c.Keys
    requires forall p :: p in c ==> c[p] == a[p] + b[p]
    ensures Total(c) == Total(a) + Total(b)
  {
    if c != map[] {
      var k :| k in c;
      TotalPick(a, k);
      TotalPick(b, k);
      TotalPick(c, k);
      TotalAdd(a - {k}, b - {k}, c - {k});
    } else {
      assert a == map[] && b == map[];
    }
  }

  /** Entries that are zero do not count. */
  lemma {:induction false} TotalExtend(a: map<Pos, real>, b: map<Pos, real>)
    requires a.Keys <= b.Keys
    requires forall p :: p in b ==> b[p] == Val(a, p)
    ensures Total(a) == Total(b)
    decreases b
  {
    if b == map[] {
      assert a == map[];
    } else {
      var k :| k in b;
      TotalPick(b, k);
      if k in a {
        TotalPick(a, k);
        TotalExtend(a - {k}, b - {k});
      } else {
        TotalExtend(a, b - {k});
      }
    }
  }

  lemma {:induction false} TotalNonNegative(m: map<Pos, real>)
    requires forall p :: p in m ==> m[p] >= 0.0
    ensures Total(m) >= 0.0
  {
    if m != map[] {
      var k :| k in m;
      TotalPick(m, k);
      TotalNonNegative(m - {k});
    }
  }

  /** A sparse map spread over a set of positions. */
  ghost function Over(m: map<Pos, real>, s: set<Pos>): (r: map<Pos, real>)
    ensures r.Keys == s
  {
    map p | p in s :: Val(m, p)
  }

  lemma TotalOver(m: map<Pos, real>, s: set<Pos>)
    requires m.Keys <= s
    ensures Total(Over(m, s)) == Total(m)
  {
    TotalExtend(m, Over(m, s));
  }

  // ----- the log

  function Credit(t: Transfer, p: Pos): real {
    if t.to == Some(p) then t.amount else 0.0
  }

  function Debit(t: Transfer, p: Pos): real {
    if t.from == p then t.amount else 0.0
  }

  function In(log: seq<Transfer>, p: Pos): real {
    if log == [] then 0.0 else In(log[..|log| - 1], p) + Credit(log[|log| - 1], p)
  }

  function Out(log: seq<Transfer>, p: Pos): real {
    if log == [] then 0.0 else Out(log[..|log| - 1], p) + Debit(log[|log| - 1], p)
  }

  function Net(log: seq<Transfer>, p: Pos): real {
    In(log, p) - Out(log, p)
  }

  lemma LogStep(log: seq<Transfer>, t: Transfer, p: Pos)
    ensures In(log + [t], p) == In(log, p) + Credit(t, p)
    ensures Out(log + [t], p) == Out(log, p) + Debit(t, p)
    ensures Net(log + [t], p) == Net(log, p) + Credit(t, p) - Debit(t, p)
  {}

  /** Credits into, and debits out of, a set of positions; and what is debited but never credited. */
  function CreditedTo(log: seq<Transfer>, s: set<Pos>): real {
    if log == [] then 0.0 else
      var t := log[|log| - 1];
      CreditedTo(log[..|log| - 1], s) + (if t.to.Some? && t.to.value in s then t.amount else 0.0)
  }

  function DebitedFrom(log: seq<Transfer>, s: set<Pos>): real {
    if log == [] then 0.0 else
      var t := log[|log| - 1];
      DebitedFrom(log[..|log| - 1], s) + (if t.from in s then t.amount else 0.0)
  }

  function Lost(log: seq<Transfer>): real {
    if log == [] then 0.0 else
      var t := log[|log| - 1];
      Lost(log[..|log| - 1]) + (if t.to.None? then t.amount else 0.0)
  }

  function Mentioned(log: seq<Transfer>): (s: set<Pos>)
    ensures forall t :: t in log ==> t.from in s && (t.to.Some? ==> t.to.value in s)
  {
    if log == [] then {} else
      var t := log[|log| - 1];
      Mentioned(log[..|log| - 1]) + {t.from} + (if t.to.Some? then {t.to.value} else {})
  }

  ghost function NetOver(log: seq<Transfer>, s: set<Pos>): (m: map<Pos, real>)
    ensures m.Keys == s
  {
    map p | p in s :: Net(log, p)
  }

  ghost function PointAt(s: set<Pos>, q: Pos, amount: real): (m: map<Pos, real>)
    ensures m.Keys == s
  {
    map p | p in s :: if p == q then amount else 0.0
  }

  lemma TotalPoint(s: set<Pos>, q: Pos, amount: real)
    ensures Total(PointAt(s, q, amount)) == if q in s then amount else 0.0
  {
    TotalExtend(map[], PointAt(s - {q}, q, amount));
    if q in s {
      TotalPick(PointAt(s, q, amount), q);
      assert PointAt(s, q, amount) - {q} == PointAt(s - {q}, q, amount);
    } else {
      assert s - {q} == s;
    }
  }

  ghost function DeltaOver(t: Transfer, s: set<Pos>): (m: map<Pos, real>)
    ensures m.Keys == s
  {
    map p | p in s :: Credit(t, p) - Debit(t, p)
  }

  lemma DeltaTotal(t: Transfer, s: set<Pos>)
    ensures Total(DeltaOver(t, s))
            == (if t.to.Some? && t.to.value in s then t.amount else 0.0) - (if t.from in s then t.amount else 0.0)
  {
    var debit := PointAt(s, t.from, -t.amount);
    TotalPoint(s, t.from, -t.amount);
    match t.to {
      case Some(q) =>
        TotalPoint(s, q, t.amount);
        TotalAdd(debit, PointAt(s, q, t.amount), DeltaOver(t, s));
      case None =>
        assert DeltaOver(t, s) == debit;
    }
  }

  /** Summing the net changes over a set counts exactly the transfers that cross its border. */
  lemma {:induction false} NetTotal(log: seq<Transfer>, s: set<Pos>)
    ensures Total(NetOver(log, s)) == CreditedTo(log, s) - DebitedFrom(log, s)
  {
    if log == [] {
      TotalExtend(map[], NetOver(log, s));
    } else {
      var rest, t := log[..|log| - 1], log[|log| - 1];
      NetTotal(rest, s);
      DeltaTotal(t, s);
      TotalAdd(NetOver(rest, s), DeltaOver(t, s), NetOver(log, s));
    }
  }

  /** Split by a set of sources: what moves among the rest is all that is moved, less what crosses or is lost. */
  lemma {:induction false} SplitBySources(log: seq<Transfer>, s: set<Pos>, sources: set<Pos>)
    requires s !! sources && Mentioned(log) <= s + sources
    ensures CreditedTo(log, s) - DebitedFrom(log, s)
            == DebitedFrom(log, sources) - CreditedTo(log, sources) - Lost(log)
  {
    if log != [] {
      SplitBySources(log[..|log| - 1], s, sources);
    }
  }

  lemma SumOver(a: map<Pos, real>, b: map<Pos, real>, s: set<Pos>, both: map<Pos, real>)
    requires a.Keys <= s && b.Keys <= s && both.Keys == s && forall p :: p in s ==> both[p] == Val(a, p) + Val(b, p)
    ensures Total(both) == Total(a) + Total(b)
  {
    TotalOver(a, s);
    TotalOver(b, s);
    TotalAdd(Over(a, s), Over(b, s), both);
  }

  /** Over any set holding all entries: what is there after is what was there, plus net transfers, less dust. */
  lemma BalanceOver(before: map<Pos, real>, after: map<Pos, real>, dust: map<Pos, real>, log: seq<Transfer>, s: set<Pos>)
    requires before.Keys <= s && after.Keys <= s && dust.Keys <= s
    requires forall p :: p in s ==> Val(after, p) == Val(before, p) + Net(log, p) - Val(dust, p)
    ensures Total(after) + Total(dust) == Total(before) + CreditedTo(log, s) - DebitedFrom(log, s)
  {
    var both := map p | p in s :: Val(after, p) + Val(dust, p);
    SumOver(after, dust, s, both);
    TotalOver(before, s);
    TotalAdd(Over(before, s), NetOver(log, s), both);
    NetTotal(log, s);
  }

  /**
   The balance of a tick. Sources are excluded on both sides; `dust` is what the settling step
   threw away at each other position.
   */
  lemma Balance(before: map<Pos, real>, after: map<Pos, real>, dust: map<Pos, real>, log: seq<Transfer>,
                sources: set<Pos>)
    requires sources !! before.Keys + after.Keys + dust.Keys
    requires forall p :: p !in sources ==> Val(after, p) == Val(before, p) + Net(log, p) - Val(dust, p)
    ensures Total(after) == Total(before) + DebitedFrom(log, sources) - CreditedTo(log, sources) - Lost(log) - Total(dust)
  {
    var s := (before.Keys + after.Keys + dust.Keys + Mentioned(log)) - sources;
    BalanceOver(before, after, dust, log, s);
    SplitBySources(log, s, sources);
  }
}
