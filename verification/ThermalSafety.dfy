/** Over all iterations and all epochs no temperature leaves its bounds (src/thermal.cc, src/thermal_solver.c). */
module ThermalSafety {
  import opened Arithmetic
  import opened ThermalGrid
  import opened ThermalSolver
  import opened ThermalBounds

  // ----- the matrix as the solver sees it

  lemma MatrixWithin(g: Grid)
    requires g.Valid()
    ensures Within(g.Matrix(), g.Nodes()) && OwnRows(g.Rows(), g.Nodes())
  {
    forall v | 0 <= v < g.Nodes()
      ensures Within(g.RowAt(v), g.Nodes()) && forall e | e in g.RowAt(v) :: e.row == v
    {
      RowAtWithin(g, v);
    }
    forall e | e in g.Matrix()
      ensures 0 <= e.row < g.Nodes() && 0 <= e.col < g.Nodes()
    {
      InMatrixExactly(g, e);
    }
  }

  lemma RowAtWithin(g: Grid, v: nat)
    requires g.Valid() && v < g.Nodes()
    ensures Within(g.RowAt(v), g.Nodes()) && forall e | e in g.RowAt(v) :: e.row == v
  {
    NodeAt(g, v);
    RowsOfRow(g, v);
    RowWithin(g, v / g.dimX / g.dimZ, v / g.dimX % g.dimZ, v % g.dimX);
  }

  lemma {:induction false} SumNotPositive(m: seq<Entry>)
    requires forall e | e in m :: e.val < 0.0
    ensures Sum(m) <= 0.0 && (m != [] ==> Sum(m) < 0.0)
  {
    if m != [] {
      assert m[|m| - 1] in m;
      SumNotPositive(m[..|m| - 1]);
    }
  }

  /** Every diagonal is positive: a node has a neighbour below it, or touches the ambient. */
  lemma DiagonalPositive(g: Grid, l: int, j: int, i: int)
    requires g.Valid() && g.Has(l, j, i)
    ensures g.Diagonal(l, j, i).val > 0.0
  {
    SidesNegative(g, l, j, i);
    AmbientOnSink(g, l, j, i);
  }

  lemma SidesNegative(g: Grid, l: int, j: int, i: int)
    requires g.Valid() && g.Has(l, j, i)
    ensures Sum(g.Lower(l, j, i) + g.Upper(l, j, i)) <= 0.0
    ensures l > 0 ==> Sum(g.Lower(l, j, i) + g.Upper(l, j, i)) < 0.0
  {
    LowerShape(g, l, j, i);
    UpperShape(g, l, j, i);
    var lower, upper := g.Lower(l, j, i), g.Upper(l, j, i);
    SumNotPositive(lower);
    SumNotPositive(upper);
    SumJoin(lower, upper);
    assert l > 0 ==> lower != [];
  }

  lemma AmbientOnSink(g: Grid, l: int, j: int, i: int)
    requires g.Valid() && g.Has(l, j, i)
    ensures g.Ambient(g.Node(l, j, i)) >= 0.0 && (l == 0 ==> g.Ambient(g.Node(l, j, i)) > 0.0)
  {
    NodeIs(g, l, j, i);
  }

  lemma LayerOf(g: Grid, v: nat)
    requires g.Valid() && v < g.Nodes()
    ensures g.Plane() > 0 && 0 <= v / g.Plane() <= g.numLayer
  {
    MultiplesApart(g.dimX, g.dimZ);
    var q := v / g.Plane();
    assert v == g.Plane() * q + v % g.Plane();
    MultiplesApart(q - g.numLayer - 1, g.Plane());
    Distributes(g.Plane(), q, -(g.numLayer + 1));
  }

  /** The matrix meets what the choice of the time step asks of it. */
  lemma MatrixFits(g: Grid, cap: seq<real>)
    requires g.Valid() && |cap| == g.numLayer + 1
    ensures g.Plane() > 0 && forall e | e in g.Matrix() :: 0 <= e.row && e.row / g.Plane() < |cap| && (e.row == e.col ==> e.val > 0.0)
  {
    MultiplesApart(g.dimX, g.dimZ);
    forall e | e in g.Matrix()
      ensures 0 <= e.row && e.row / g.Plane() < |cap| && (e.row == e.col ==> e.val > 0.0)
    {
      InMatrixExactly(g, e);
      LayerOf(g, e.row);
      NodeAt(g, e.row);
      DiagonalOnly(g, e.row / g.dimX / g.dimZ, e.row / g.dimX % g.dimZ, e.row % g.dimX, e);
    }
  }

  lemma DiagonalOnly(g: Grid, l: int, j: int, i: int, e: Entry)
    requires g.Valid() && g.Has(l, j, i) && e in g.Row(l, j, i)
    ensures e.row == e.col ==> e == g.Diagonal(l, j, i) && e.val > 0.0
  {
    LowerShape(g, l, j, i);
    UpperShape(g, l, j, i);
    DiagonalPositive(g, l, j, i);
  }

  lemma StepTimesConductance(val: real, dt: real, c: real, bound: real)
    requires val > 0.0 && c > 0.0 && 0.0 <= dt <= bound <= c / val
    ensures 0.0 <= dt / c && Times(val, dt / c) <= 1.0
  {
    assert c / val * val == c;
    ScaleUp(c / val, dt, val);
    assert dt * val <= c;
    assert val * (dt / c) == dt * val / c;
    assert dt * val / c <= c / c by {
      QuotientGrows(dt * val, c, c);
    }
  }

  lemma QuotientGrows(a: real, b: real, c: real)
    requires a <= b && c > 0.0
    ensures a / c <= b / c
  {
  }

  /** A step below the bound keeps every node's own weight non-negative. */
  lemma BoundedStepIsStable(g: Grid, s: Setting, dt: real, cap: seq<real>, heat: seq<real>)
    requires g.Valid() && |cap| == g.numLayer + 1 && MadeOf(s, dt, cap, g.Plane(), heat) && |heat| == g.Nodes()
    requires forall e | e in g.Matrix() :: 0 <= e.row && e.row / g.Plane() < |cap| && (e.row == e.col ==> e.val > 0.0)
    requires 0.0 <= dt <= StepBound(g.Matrix(), cap, g.Plane())
    ensures Stable(g, s)
  {
    forall l: int, j: int, i: int | g.Has(l, j, i)
      ensures StableAt(g, s, l, j, i)
    {
      StableNode(g, s, dt, cap, heat, l, j, i);
    }
  }

  lemma StableNode(g: Grid, s: Setting, dt: real, cap: seq<real>, heat: seq<real>, l: int, j: int, i: int)
    requires g.Valid() && |cap| == g.numLayer + 1 && MadeOf(s, dt, cap, g.Plane(), heat) && |heat| == g.Nodes() && g.Has(l, j, i)
    requires forall e | e in g.Matrix() :: 0 <= e.row && e.row / g.Plane() < |cap| && (e.row == e.col ==> e.val > 0.0)
    requires 0.0 <= dt <= StepBound(g.Matrix(), cap, g.Plane())
    ensures StableAt(g, s, l, j, i)
  {
    var d := DiagonalInMatrix(g, l, j, i);
    StableEntry(g.Matrix(), cap, g.Plane(), s, dt, heat, d);
  }

  lemma DiagonalInMatrix(g: Grid, l: int, j: int, i: int) returns (d: Entry)
    requires g.Valid() && g.Has(l, j, i)
    ensures d == g.Diagonal(l, j, i) && d in g.Matrix() && d.row == d.col == g.Node(l, j, i) && 0 <= d.row < g.Nodes()
  {
    d := g.Diagonal(l, j, i);
    NodeIs(g, l, j, i);
    assert d in g.Row(l, j, i) && d in g.RowAt(d.row);
    InMatrixExactly(g, d);
  }

  lemma StableEntry(m: seq<Entry>, cap: seq<real>, plane: nat, s: Setting, dt: real, heat: seq<real>, d: Entry)
    requires MadeOf(s, dt, cap, plane, heat) && d in m && d.row == d.col && d.row < |heat|
    requires forall e | e in m :: 0 <= e.row && e.row / plane < |cap| && (e.row == e.col ==> e.val > 0.0)
    requires 0.0 <= dt <= StepBound(m, cap, plane)
    ensures s.scale[d.row] >= 0.0 && Times(d.val, s.scale[d.row]) <= 1.0
  {
    StepBoundIs(m, cap, plane);
    StepTimesConductance(d.val, dt, cap[d.row / plane], StepBound(m, cap, plane));
  }

  // ----- one iteration

  /** When every node and the ambient are at `x` or above, so is every node after an iteration. */
  lemma StepStays(g: Grid, was: seq<real>, s: Setting, tamb: real, x: real)
    requires g.Valid() && Stable(g, s) && |was| == g.Nodes() && Heated(g, s.heat, tamb) && tamb >= x && AtLeast(was, x)
    ensures Within(g.Matrix(), |was|) && AtLeast(Next(g.Matrix(), was, s), x)
  {
    MatrixWithin(g);
    forall v | 0 <= v < |was|
      ensures Next(g.Matrix(), was, s)[v] >= x
    {
      NodeAt(g, v);
      GatheredFromRow(g.Rows(), g.Nodes(), was, s, v);
      var l, j, i := v / g.dimX / g.dimZ, v / g.dimX % g.dimZ, v % g.dimX;
      assert StableAt(g, s, l, j, i);
      var now := NodeStays(g, was, s, l, j, i, tamb, x);
      assert g.Row(l, j, i) == g.RowAt(v) == g.Rows()[v];
    }
  }

  lemma IterationsStay(g: Grid, was: seq<real>, s: Setting, tamb: real, x: real, n: nat)
    requires g.Valid() && Stable(g, s) && |was| == g.Nodes() && Heated(g, s.heat, tamb) && tamb >= x && AtLeast(was, x)
    ensures Within(g.Matrix(), |was|) && AtLeast(Iterated(g.Matrix(), was, s, n), x)
  {
    MatrixWithin(g);
    forall ts: seq<real> | |ts| == |s.heat| && AtLeast(ts, x)
      ensures AtLeast(Next(g.Matrix(), ts, s), x)
    {
      StepStays(g, ts, s, tamb, x);
    }
    StepsStay(g.Matrix(), was, s, x, n);
  }

  /** What every iteration keeps, any number of them keeps. */
  lemma {:induction false} StepsStay(m: seq<Entry>, was: seq<real>, s: Setting, x: real, n: nat)
    requires s.Valid() && |was| == |s.heat| && Within(m, |was|) && AtLeast(was, x)
    requires forall ts: seq<real> | |ts| == |s.heat| && AtLeast(ts, x) :: AtLeast(Next(m, ts, s), x)
    ensures AtLeast(Iterated(m, was, s, n), x)
  {
    if n > 0 {
      StepsStay(m, was, s, x, n - 1);
    }
  }

  // ----- the other side, by symmetry

  function Negated(ts: seq<real>): (now: seq<real>)
    ensures |now| == |ts| && forall v | 0 <= v < |ts| :: now[v] == -ts[v]
  {
    seq(|ts|, v requires 0 <= v < |ts| => -ts[v])
  }

  function Mirrored(s: Setting): Setting {
    Setting(s.scale, Negated(s.heat))
  }

  /** Turning all temperatures and all heat around turns the result around. */
  lemma {:induction false} GatheredMirrors(m: seq<Entry>, was: seq<real>, s: Setting, v: int)
    requires s.Valid() && |was| == |s.heat| && Within(m, |was|)
    ensures Gathered(m, Negated(was), Mirrored(s), v) == -Gathered(m, was, s, v)
  {
    if m != [] {
      var e := m[|m| - 1];
      assert e in m;
      GatheredMirrors(m[..|m| - 1], was, s, v);
      ContributionMirrors(e, was, s);
    }
  }

  lemma ContributionMirrors(e: Entry, was: seq<real>, s: Setting)
    requires s.Valid() && |was| == |s.heat| && 0 <= e.row < |was| && 0 <= e.col < |was|
    ensures Contribution(e, Negated(was), Mirrored(s)) == -Contribution(e, was, s)
  {
  }

  lemma NextMirrors(m: seq<Entry>, was: seq<real>, s: Setting)
    requires s.Valid() && |was| == |s.heat| && Within(m, |was|)
    ensures Next(m, Negated(was), Mirrored(s)) == Negated(Next(m, was, s))
  {
    forall v | 0 <= v < |was|
      ensures Next(m, Negated(was), Mirrored(s))[v] == -Next(m, was, s)[v]
    {
      GatheredMirrors(m, was, s, v);
    }
  }

  lemma {:induction false} IteratedMirrors(m: seq<Entry>, was: seq<real>, s: Setting, n: nat)
    requires s.Valid() && |was| == |s.heat| && Within(m, |was|)
    ensures Iterated(m, Negated(was), Mirrored(s), n) == Negated(Iterated(m, was, s, n))
  {
    if n > 0 {
      IteratedMirrors(m, was, s, n - 1);
      NextMirrors(m, Iterated(m, was, s, n - 1), s);
    }
  }

  /** No heat but the ambient's. */
  ghost predicate Unpowered(g: Grid, heat: seq<real>, tamb: real)
    requires g.Valid()
  {
    forall v | 0 <= v < |heat| :: heat[v] == Times(g.Ambient(v), tamb)
  }

  ghost predicate AtMost(ts: seq<real>, x: real) {
    forall v | 0 <= v < |ts| :: ts[v] <= x
  }

  lemma TimesMirrors(a: real, b: real)
    ensures Times(a, -b) == -Times(a, b)
  {
  }

  /** Without power, temperatures never rise above the highest of the old ones and the ambient. */
  lemma IterationsStayBelow(g: Grid, was: seq<real>, s: Setting, tamb: real, x: real, n: nat)
    requires g.Valid() && Stable(g, s) && |was| == g.Nodes() && Unpowered(g, s.heat, tamb) && tamb <= x && AtMost(was, x)
    ensures Within(g.Matrix(), |was|) && AtMost(Iterated(g.Matrix(), was, s, n), x)
  {
    MatrixWithin(g);
    MirroredIterations(g, was, s, tamb, x, n);
    IteratedMirrors(g.Matrix(), was, s, n);
    AtLeastMirrors(Iterated(g.Matrix(), was, s, n), x);
  }

  lemma MirroredIterations(g: Grid, was: seq<real>, s: Setting, tamb: real, x: real, n: nat)
    requires g.Valid() && Stable(g, s) && |was| == g.Nodes() && Unpowered(g, s.heat, tamb) && tamb <= x && AtMost(was, x)
    ensures Within(g.Matrix(), |was|) && AtLeast(Iterated(g.Matrix(), Negated(was), Mirrored(s), n), -x)
  {
    StableMirrors(g, s);
    HeatMirrors(g, s.heat, tamb);
    AtMostMirrors(was, x);
    IterationsStay(g, Negated(was), Mirrored(s), -tamb, -x, n);
  }

  lemma HeatMirrors(g: Grid, heat: seq<real>, tamb: real)
    requires g.Valid() && Unpowered(g, heat, tamb)
    ensures Heated(g, Negated(heat), -tamb)
  {
    forall v | 0 <= v < |heat|
      ensures Negated(heat)[v] >= Times(g.Ambient(v), -tamb)
    {
      TimesMirrors(g.Ambient(v), tamb);
    }
  }

  lemma AtMostMirrors(ts: seq<real>, x: real)
    requires AtMost(ts, x)
    ensures AtLeast(Negated(ts), -x)
  {
  }

  lemma AtLeastMirrors(ts: seq<real>, x: real)
    requires AtLeast(Negated(ts), -x)
    ensures AtMost(ts, x)
  {
    assert forall v | 0 <= v < |ts| :: Negated(ts)[v] == -ts[v];
  }

  lemma StableMirrors(g: Grid, s: Setting)
    requires g.Valid() && Stable(g, s)
    ensures Stable(g, Mirrored(s))
  {
    forall l: int, j: int, i: int | g.Has(l, j, i)
      ensures StableAt(g, Mirrored(s), l, j, i)
    {
      assert StableAt(g, s, l, j, i);
    }
  }

  // ----- heat

  /** The node that the program heats with the power of cell (i, j) of die `l`: in the second of the die's three layers. */
  function HeatedNode(g: Grid, i: int, j: int, l: int): int {
    g.Plane() * (3 * l + 1) + (i * g.dimZ + j)
  }

  /** It is the node of that cell for every cell exactly when the grid is a single line of cells. */
  lemma PowerLandsOnItsNodeExactly(g: Grid, l: int)
    requires g.dimX >= 1 && g.dimZ >= 1
    ensures (forall i: int, j: int | 0 <= i < g.dimX && 0 <= j < g.dimZ :: HeatedNode(g, i, j, l) == g.Node(3 * l + 1, j, i)) <==>
            g.dimX == 1 || g.dimZ == 1
  {
    if g.dimX > 1 && g.dimZ > 1 {
      assert HeatedNode(g, 1, 0, l) == g.Plane() * (3 * l + 1) + g.dimZ && g.Node(3 * l + 1, 0, 1) == g.Plane() * (3 * l + 1) + 1;
    }
  }

  /** The heat of node `v`: the ambient's on the heat sink, the power of some cell in the active layers, else none. */
  function HeatAt(g: Grid, tamb: real, power: (int, int, int) -> real, v: nat): real
    requires g.Valid()
  {
    if g.Plane() == 0 || v < g.Plane() then tamb / g.ramb
    else
      var layer, r := v / g.Plane(), v % g.Plane();
      if layer % 3 == 1 then power(r / g.dimZ, r % g.dimZ, layer / 3) else 0.0
  }
}
