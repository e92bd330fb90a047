/** The explicit time stepping of the thermal grid (src/thermal.cc, src/thermal_solver.c). */
module ThermalSolver {
  import opened ThermalGrid

  // ----- the time step

  /** The largest stable step so far: at most 100, and at most capacity over conductance for every diagonal entry. */
  function StepBound(m: seq<Entry>, cap: seq<real>, plane: nat): real
    requires plane > 0 && forall e | e in m :: 0 <= e.row && e.row / plane < |cap| && (e.row == e.col ==> e.val > 0.0)
  {
    if m == [] then 100.0
    else
      var e, rest := m[|m| - 1], StepBound(m[..|m| - 1], cap, plane);
      if e.row == e.col && cap[e.row / plane] / e.val < rest then cap[e.row / plane] / e.val else rest
  }

  lemma {:induction false} StepBoundIs(m: seq<Entry>, cap: seq<real>, plane: nat)
    requires plane > 0 && forall e | e in m :: 0 <= e.row && e.row / plane < |cap| && (e.row == e.col ==> e.val > 0.0)
    requires forall c | c in cap :: c > 0.0
    ensures 0.0 < StepBound(m, cap, plane) <= 100.0
    ensures forall e | e in m && e.row == e.col :: StepBound(m, cap, plane) <= cap[e.row / plane] / e.val
    ensures StepBound(m, cap, plane) == 100.0 || exists e | e in m && e.row == e.col :: StepBound(m, cap, plane) == cap[e.row / plane] / e.val
  {
    if m != [] {
      StepBoundIs(m[..|m| - 1], cap, plane);
      var e := m[|m| - 1];
      assert e in m && cap[e.row / plane] in cap;
    }
  }

  /** The number of iterations an epoch is cut into: the fewest, from 10 on, whose step stays below the bound. */
  method CalculateTimeStep(midx: array<Entry>, cap: seq<real>, plane: nat, epochTime: real) returns (timeIter: nat)
    requires plane > 0 && forall e | e in midx[..] :: 0 <= e.row && e.row / plane < |cap| && (e.row == e.col ==> e.val > 0.0)
    requires (forall c | c in cap :: c > 0.0) && epochTime > 0.0
    ensures timeIter >= 10 && epochTime / (timeIter as real) < StepBound(midx[..], cap, plane)
    ensures timeIter > 10 ==> epochTime / ((timeIter - 1) as real) >= StepBound(midx[..], cap, plane)
  {
    var dt := 100.0;
    var j := 0;
    while j < midx.Length
      invariant 0 <= j <= midx.Length && dt == StepBound(midx[..j], cap, plane)
    {
      var e := midx[j];
      assert e in midx[..] && midx[..j + 1][..j] == midx[..j];
      if e.row == e.col {
        var bound := cap[e.row / plane] / e.val;
        if bound < dt {
          dt := bound;
        }
      }
      j := j + 1;
    }
    assert midx[..j] == midx[..];
    StepBoundIs(midx[..], cap, plane);
    timeIter := 10;
    while epochTime / (timeIter as real) >= dt
      invariant timeIter >= 10 && (timeIter > 10 ==> epochTime / ((timeIter - 1) as real) >= dt)
      decreases (epochTime / dt).Floor - timeIter
    {
      StepsAreFew(epochTime, dt, timeIter);
      timeIter := timeIter + 1;
    }
  }

  lemma StepsAreFew(total: real, dt: real, n: nat)
    requires dt > 0.0 && n > 0 && total / (n as real) >= dt
    ensures n <= (total / dt).Floor
  {
    var r := n as real;
    assert total == (total / r) * r;
    assert total >= dt * r by {
      ScaleUp(total / r, dt, r);
    }
    assert total / dt >= r by {
      if total / dt < r {
        assert total == (total / dt) * dt;
        ScaleUpStrict(r, total / dt, dt);
      }
    }
  }

  lemma ScaleUp(a: real, b: real, r: real)
    requires a >= b && r >= 0.0
    ensures a * r >= b * r
  {
  }

  lemma ScaleUpStrict(a: real, b: real, r: real)
    requires a > b && r > 0.0
    ensures a * r > b * r
  {
  }

  // ----- one iteration

  /** The setting of an iteration: for each node the time step over its layer's capacity, and the heat entering it. */
  datatype Setting = Setting(scale: seq<real>, heat: seq<real>) {
    predicate Valid() {
      |scale| == |heat|
    }
  }

  /** The setting made of a time step, the capacities of the layers of `plane` nodes each, and the heat. */
  ghost predicate MadeOf(s: Setting, dt: real, cap: seq<real>, plane: nat, heat: seq<real>) {
    s.Valid() && s.heat == heat && plane > 0 && (forall c | c in cap :: c > 0.0) &&
    forall v | 0 <= v < |heat| :: 0 <= v / plane < |cap| && cap[v / plane] > 0.0 && s.scale[v] == dt / cap[v / plane]
  }

  /** What an entry adds to the new temperature of its row's node. */
  function Contribution(e: Entry, was: seq<real>, s: Setting): real
    requires s.Valid() && |was| == |s.heat| && 0 <= e.row < |was| && 0 <= e.col < |was|
  {
    var k := s.scale[e.row];
    if e.row == e.col then (1.0 - e.val * k) * was[e.col] + s.heat[e.row] * k else -(e.val * was[e.col] * k)
  }

  ghost predicate Within(m: seq<Entry>, n: int) {
    forall e | e in m :: 0 <= e.row < n && 0 <= e.col < n
  }

  /** The new temperature of node `v`: the contributions of its row's entries, in order. */
  function Gathered(m: seq<Entry>, was: seq<real>, s: Setting, v: int): real
    requires s.Valid() && |was| == |s.heat| && Within(m, |was|)
  {
    if m == [] then 0.0
    else
      var e := m[|m| - 1];
      assert e in m;
      Gathered(m[..|m| - 1], was, s, v) + if e.row == v then Contribution(e, was, s) else 0.0
  }

  function Next(m: seq<Entry>, was: seq<real>, s: Setting): (now: seq<real>)
    requires s.Valid() && |was| == |s.heat| && Within(m, |was|)
    ensures |now| == |was|
  {
    seq(|was|, v => Gathered(m, was, s, v))
  }

  function Iterated(m: seq<Entry>, was: seq<real>, s: Setting, n: nat): (now: seq<real>)
    requires s.Valid() && |was| == |s.heat| && Within(m, |was|)
    ensures |now| == |was|
  {
    if n == 0 then was else Next(m, Iterated(m, was, s, n - 1), s)
  }

  /** One iteration is `Next`, and iterations follow one another. */
  lemma {:induction false} IterationsCompose(m: seq<Entry>, was: seq<real>, s: Setting, a: nat, b: nat)
    requires s.Valid() && |was| == |s.heat| && Within(m, |was|)
    ensures Iterated(m, was, s, 0) == was && Iterated(m, was, s, 1) == Next(m, was, s)
    ensures Iterated(m, was, s, a + b) == Iterated(m, Iterated(m, was, s, a), s, b)
  {
    if b > 0 {
      IterationsCompose(m, was, s, a, b - 1);
    }
    assert Iterated(m, was, s, 1) == Next(m, Iterated(m, was, s, 0), s);
  }

  lemma Rescaled(x: real, dt: real, c: real)
    requires c > 0.0
    ensures x * dt / c == x * (dt / c)
  {
  }

  /** The body of the loop over entries. */
  method AddEntry(e: Entry, was: array<real>, t: array<real>, ghost s: Setting, dt: real, cap: seq<real>, plane: nat, heat: array<real>)
    requires MadeOf(s, dt, cap, plane, heat[..]) && was.Length == t.Length == heat.Length && t != was && t != heat
    requires 0 <= e.row < was.Length && 0 <= e.col < was.Length
    modifies t
    ensures forall v | 0 <= v < t.Length :: t[v] == old(t[v]) + if e.row == v then Contribution(e, was[..], s) else 0.0
  {
    var c := cap[e.row / plane];
    assert c in cap;
    if e.row == e.col {
      Rescaled(e.val, dt, c);
      Rescaled(heat[e.row], dt, c);
      t[e.row] := t[e.row] + ((1.0 - e.val * dt / c) * was[e.col] + heat[e.row] * dt / c);
    } else {
      Rescaled(e.val * was[e.col], dt, c);
      t[e.row] := t[e.row] - e.val * was[e.col] * dt / c;
    }
  }

  lemma GatheredStep(m: seq<Entry>, b: nat, was: seq<real>, s: Setting, v: int)
    requires s.Valid() && |was| == |s.heat| && Within(m, |was|) && b < |m|
    ensures m[b] in m && Gathered(m[..b + 1], was, s, v) == Gathered(m[..b], was, s, v) + if m[b].row == v then Contribution(m[b], was, s) else 0.0
  {
    assert m[..b + 1][..b] == m[..b] && m[..b + 1][b] == m[b] && m[b] in m;
  }

  /** The entries from `from` to `to`. */
  method SweepBlock(midx: array<Entry>, from: nat, to: nat, was: array<real>, t: array<real>, ghost s: Setting, dt: real, cap: seq<real>,
                    plane: nat, heat: array<real>)
    requires MadeOf(s, dt, cap, plane, heat[..]) && was.Length == t.Length == heat.Length && t != was && t != heat
    requires Within(midx[..], was.Length) && from <= to <= midx.Length
    requires forall v | 0 <= v < t.Length :: t[v] == Gathered(midx[..][..from], was[..], s, v)
    modifies t
    ensures forall v | 0 <= v < t.Length :: t[v] == Gathered(midx[..][..to], was[..], s, v)
  {
    ghost var m, w := midx[..], was[..];
    var b := from;
    while b < to
      invariant from <= b <= to && forall v | 0 <= v < t.Length :: t[v] == Gathered(m[..b], w, s, v)
    {
      assert midx[b] == m[b] && m[b] in m;
      AddEntry(midx[b], was, t, s, dt, cap, plane, heat);
      forall v | 0 <= v < t.Length
        ensures t[v] == Gathered(m[..b + 1], w, s, v)
      {
        GatheredStep(m, b, w, s, v);
      }
      b := b + 1;
    }
  }

  /** The loop over all entries, eight at a time; `t` holds zeros to begin with. */
  method Sweep(midx: array<Entry>, was: array<real>, t: array<real>, ghost s: Setting, dt: real, cap: seq<real>, plane: nat, heat: array<real>)
    requires MadeOf(s, dt, cap, plane, heat[..]) && was.Length == t.Length == heat.Length && t != was && t != heat
    requires Within(midx[..], was.Length) && forall v | 0 <= v < t.Length :: t[v] == 0.0
    modifies t
    ensures t[..] == Next(midx[..], was[..], s)
  {
    var j := 0;
    while j < midx.Length
      invariant 0 <= j <= midx.Length && forall v | 0 <= v < t.Length :: t[v] == Gathered(midx[..][..j], was[..], s, v)
    {
      var bound := if j + 8 < midx.Length then j + 8 else midx.Length;
      SweepBlock(midx, j, bound, was, t, s, dt, cap, plane, heat);
      j := bound;
    }
    assert midx[..][..j] == midx[..];
  }

  method Clear(t: array<real>)
    modifies t
    ensures forall v | 0 <= v < t.Length :: t[v] == 0.0
  {
    var v := 0;
    while v < t.Length
      invariant 0 <= v <= t.Length && forall w | 0 <= w < v :: t[w] == 0.0
    {
      t[v] := 0.0;
      v := v + 1;
    }
  }

  /** `iter` iterations, the two temperature arrays changing places after each. */
  method Iterate(midx: array<Entry>, start: array<real>, iter: nat, ghost s: Setting, dt: real, cap: seq<real>, plane: nat, heat: array<real>)
    returns (tp: array<real>)
    requires MadeOf(s, dt, cap, plane, heat[..]) && start.Length == heat.Length && start != heat
    requires Within(midx[..], start.Length)
    modifies start
    ensures tp[..] == Iterated(midx[..], old(start[..]), s, iter) && (tp == start || fresh(tp))
  {
    tp := start;
    var t := new real[start.Length](_ => 0.0);
    var iit := 0;
    while iit < iter
      invariant 0 <= iit <= iter && t != tp && t.Length == tp.Length == start.Length && t != heat && tp != heat
      invariant (tp == start || fresh(tp)) && (t == start || fresh(t))
      invariant forall v | 0 <= v < t.Length :: t[v] == 0.0
      invariant tp[..] == Iterated(midx[..], old(start[..]), s, iit)
    {
      Sweep(midx, tp, t, s, dt, cap, plane, heat);
      t, tp := tp, t;
      Clear(t);
      iit := iit + 1;
    }
  }
}
