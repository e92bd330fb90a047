/** An iteration as a step of the heat equation, and what enters it (src/thermal.cc, src/thermal_solver.c). */
module ThermalEuler {
  import opened ThermalGrid
  import opened ThermalSolver
  import opened ThermalBounds
  import opened ThermalSafety

  /** The heat that leaves a node through the entries of its row. */
  function Outflow(row: seq<Entry>, was: seq<real>): real
    requires Within(row, |was|)
  {
    if row == [] then 0.0
    else
      var e := row[|row| - 1];
      assert e in row;
      Outflow(row[..|row| - 1], was) + Times(e.val, was[e.col])
  }

  lemma {:induction false} OutflowJoin(a: seq<Entry>, b: seq<Entry>, was: seq<real>)
    requires Within(a, |was|) && Within(b, |was|)
    ensures Within(a + b, |was|) && Outflow(a + b, was) == Outflow(a, was) + Outflow(b, was)
  {
    if b == [] {
      assert a + b == a;
    } else {
      assert b[|b| - 1] in b;
      OutflowJoin(a, b[..|b| - 1], was);
      assert (a + b)[..|a + b| - 1] == a + b[..|b| - 1];
    }
  }

  /** What neighbours bring in is what leaves through their entries, turned around. */
  lemma {:induction false} NeighboursBring(m: seq<Entry>, was: seq<real>, s: Setting, v: int)
    requires s.Valid() && |was| == |s.heat| && Within(m, |was|) && 0 <= v < |was| && forall e | e in m :: e.row == v && e.col != v
    ensures Gathered(m, was, s, v) == -Times(s.scale[v], Outflow(m, was))
  {
    if m != [] {
      var e := m[|m| - 1];
      assert e in m;
      NeighboursBring(m[..|m| - 1], was, s, v);
      Adds(s.scale[v], Outflow(m[..|m| - 1], was), e.val, was[e.col]);
    }
  }

  lemma Adds(k: real, sum: real, val: real, t: real)
    ensures -Times(k, sum) - val * t * k == -Times(k, sum + Times(val, t))
  {
    assert k * (sum + val * t) == k * sum + k * (val * t);
    assert val * t * k == k * (val * t);
  }

  /** One node's new temperature: the old one, and the time step over the capacity times what enters less what leaves. */
  lemma NodeSteps(g: Grid, was: seq<real>, s: Setting, l: int, j: int, i: int)
    requires g.Valid() && g.Has(l, j, i) && s.Valid() && |was| == |s.heat| == g.Nodes()
    ensures var v := g.Node(l, j, i);
            0 <= v < |was| && Within(g.Row(l, j, i), |was|) &&
            Gathered(g.Row(l, j, i), was, s, v) == was[v] + Times(s.scale[v], s.heat[v] - Outflow(g.Row(l, j, i), was))
  {
    hide Gathered, Outflow, Times, OwnPart, Grid.Row, Grid.Diagonal, Grid.Ambient;
    NodeIs(g, l, j, i);
    var v := g.Node(l, j, i);
    var lower, d, upper := RowFacts(g, l, j, i);
    NeighboursBring(lower, was, s, v);
    NeighboursBring(upper, was, s, v);
    var now := RowParts(lower, d, upper, was, s, v, Gathered(lower, was, s, v), Gathered(upper, was, s, v));
    OutflowJoin(lower, [d], was);
    OutflowJoin(lower + [d], upper, was);
    OutflowOne(d, was);
    Balance(s.scale[v], d.val, was[v], s.heat[v], Outflow(lower, was), Outflow(upper, was));
  }

  lemma OutflowOne(d: Entry, was: seq<real>)
    requires 0 <= d.row < |was| && 0 <= d.col < |was|
    ensures Within([d], |was|) && Outflow([d], was) == Times(d.val, was[d.col])
  {
    assert [d][..0] == [];
  }

  lemma Balance(k: real, diagonal: real, t: real, heat: real, a: real, b: real)
    ensures -Times(k, a) + OwnPart(diagonal, k, t, heat) + -Times(k, b) == t + Times(k, heat - (a + Times(diagonal, t) + b))
  {
    assert k * (heat - (a + diagonal * t + b)) == k * heat - k * a - k * (diagonal * t) - k * b;
    assert (1.0 - diagonal * k) * t == t - k * (diagonal * t);
  }

  lemma IterationAt(g: Grid, was: seq<real>, s: Setting, v: nat)
    requires g.Valid() && s.Valid() && |was| == |s.heat| == g.Nodes() && v < g.Nodes()
    ensures Within(g.Matrix(), |was|) && Within(g.RowAt(v), |was|)
    ensures Next(g.Matrix(), was, s)[v] == was[v] + Times(s.scale[v], s.heat[v] - Outflow(g.RowAt(v), was))
  {
    hide Gathered, Outflow, Times, Grid.Row, Grid.Node, Grid.Nodes;
    MatrixWithin(g);
    NodeAt(g, v);
    RowAtWithin(g, v);
    GatheredFromRow(g.Rows(), g.Nodes(), was, s, v);
    NodeSteps(g, was, s, v / g.dimX / g.dimZ, v / g.dimX % g.dimZ, v % g.dimX);
  }

  /**
    An iteration is an explicit Euler step of the heat equation: at every node, capacity times the change is the
    time step times the heat that enters less the heat that leaves through the matrix.
   */
  lemma StepsTheHeatEquation(g: Grid, was: seq<real>, s: Setting, dt: real, cap: seq<real>, v: nat)
    requires g.Valid() && |was| == |s.heat| == g.Nodes() && MadeOf(s, dt, cap, g.Plane(), s.heat) && v < g.Nodes()
    ensures Within(g.Matrix(), |was|) && Within(g.RowAt(v), |was|) && 0 <= v / g.Plane() < |cap|
    ensures cap[v / g.Plane()] * (Next(g.Matrix(), was, s)[v] - was[v]) == dt * (s.heat[v] - Outflow(g.RowAt(v), was))
  {
    hide Next, Outflow, Times, Grid.RowAt, Grid.Matrix;
    IterationAt(g, was, s, v);
    Scaled(cap[v / g.Plane()], dt, s.scale[v], s.heat[v] - Outflow(g.RowAt(v), was), Next(g.Matrix(), was, s)[v] - was[v]);
  }

  lemma Scaled(c: real, dt: real, k: real, net: real, change: real)
    requires c > 0.0 && k == dt / c && change == Times(k, net)
    ensures c * change == dt * net
  {
    assert c * (k * net) == c * k * net;
    assert c * k == dt;
  }
}
