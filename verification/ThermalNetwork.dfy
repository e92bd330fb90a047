/** The matrix as a network of resistors, in the given resistances alone (src/thermal_solver.c). */
module ThermalNetwork {
  import opened ThermalGrid

  /** Two nodes side by side in a layer, in the given direction, or one above the other. */
  predicate BesideX(l: int, j: int, i: int, m: int, k: int, h: int) {
    m == l && k == j && (h == i + 1 || h == i - 1)
  }

  predicate BesideZ(l: int, j: int, i: int, m: int, k: int, h: int) {
    m == l && h == i && (k == j + 1 || k == j - 1)
  }

  predicate Above(l: int, j: int, i: int, m: int, k: int, h: int) {
    k == j && h == i && (m == l + 1 || m == l - 1)
  }

  /** What an entry between two different nodes must be: minus one over the resistance between them. */
  ghost predicate Joins(g: Grid, l: int, j: int, i: int, m: int, k: int, h: int, val: real) {
    (BesideX(l, j, i, m, k, h) && val * g.rhoriX(l) == -1.0) ||
    (BesideZ(l, j, i, m, k, h) && val * g.rhoriZ(l) == -1.0) ||
    (Above(l, j, i, m, k, h) && val * ((g.rvert(i, j, l) + g.rvert(i, j, m)) / 2.0) == -1.0)
  }

  /** Between neighbours stands one entry for their resistance, between other nodes none. */
  ghost predicate IsNetwork(g: Grid, entries: seq<Entry>) {
    forall l: int, j: int, i: int, m: int, k: int, h: int, val: real | g.Has(l, j, i) && g.Has(m, k, h) && (l, j, i) != (m, k, h) ::
      Entry(g.Node(l, j, i), g.Node(m, k, h), val) in entries <==> Joins(g, l, j, i, m, k, h, val)
  }

  lemma NodesDiffer(g: Grid, l: int, j: int, i: int, m: int, k: int, h: int)
    requires g.Valid() && g.Has(l, j, i) && g.Has(m, k, h)
    ensures g.Node(l, j, i) == g.Node(m, k, h) <==> l == m && j == k && i == h
  {
    NodeIs(g, l, j, i);
    NodeIs(g, m, k, h);
  }

  lemma Inverse(r: real, val: real)
    requires r > 0.0
    ensures val == -1.0 / r <==> val * r == -1.0
  {
    if val * r == -1.0 {
      assert val == val * r / r;
    }
  }

  lemma HalvesAdd(a: real, b: real)
    ensures a / 2.0 + b / 2.0 == (a + b) / 2.0
  {
  }

  lemma AlongX(g: Grid, l: int, j: int, to: int, m: int, k: int, h: int, val: real)
    requires g.Valid() && g.Has(l, j, to) && g.Has(m, k, h)
    ensures g.Node(m, k, h) == g.Node(l, j, to) && val == g.LateralX(l) <==> m == l && k == j && h == to && val * g.rhoriX(l) == -1.0
  {
    Inverse(g.rhoriX(l), val);
    NodesDiffer(g, l, j, to, m, k, h);
  }

  lemma AlongZ(g: Grid, l: int, i: int, to: int, m: int, k: int, h: int, val: real)
    requires g.Valid() && g.Has(l, to, i) && g.Has(m, k, h)
    ensures g.Node(m, k, h) == g.Node(l, to, i) && val == g.LateralZ(l) <==> m == l && k == to && h == i && val * g.rhoriZ(l) == -1.0
  {
    Inverse(g.rhoriZ(l), val);
    NodesDiffer(g, l, to, i, m, k, h);
  }

  lemma AlongY(g: Grid, l: int, j: int, i: int, to: int, m: int, k: int, h: int, val: real)
    requires g.Valid() && g.Has(to, j, i) && g.Has(m, k, h)
    ensures g.Node(m, k, h) == g.Node(to, j, i) && val == g.Vertical(l, j, i, to) <==>
            m == to && k == j && h == i && val * ((g.rvert(i, j, l) + g.rvert(i, j, to)) / 2.0) == -1.0
  {
    Inverse((g.rvert(i, j, l) + g.rvert(i, j, to)) / 2.0, val);
    HalvesAdd(g.rvert(i, j, l), g.rvert(i, j, to));
    NodesDiffer(g, to, j, i, m, k, h);
  }

  lemma LowerJoins(g: Grid, l: int, j: int, i: int, m: int, k: int, h: int, val: real)
    requires g.Valid() && g.Has(l, j, i) && g.Has(m, k, h)
    ensures Entry(g.Node(l, j, i), g.Node(m, k, h), val) in g.Lower(l, j, i) <==>
            Joins(g, l, j, i, m, k, h, val) && (m < l || k < j || h < i)
  {
    hide Grid.Node, Grid.LateralX, Grid.LateralZ, Grid.Vertical, Grid.Valid;
    if l > 0 {
      AlongY(g, l, j, i, l - 1, m, k, h, val);
    }
    if j > 0 {
      AlongZ(g, l, i, j - 1, m, k, h, val);
    }
    if i > 0 {
      AlongX(g, l, j, i - 1, m, k, h, val);
    }
  }

  lemma UpperJoins(g: Grid, l: int, j: int, i: int, m: int, k: int, h: int, val: real)
    requires g.Valid() && g.Has(l, j, i) && g.Has(m, k, h)
    ensures Entry(g.Node(l, j, i), g.Node(m, k, h), val) in g.Upper(l, j, i) <==>
            Joins(g, l, j, i, m, k, h, val) && (m > l || k > j || h > i)
  {
    hide Grid.Node, Grid.LateralX, Grid.LateralZ, Grid.Vertical, Grid.Valid;
    if l < g.numLayer {
      AlongY(g, l, j, i, l + 1, m, k, h, val);
    }
    if j + 1 < g.dimZ {
      AlongZ(g, l, i, j + 1, m, k, h, val);
    }
    if i + 1 < g.dimX {
      AlongX(g, l, j, i + 1, m, k, h, val);
    }
  }

  /** The matrix is the network of the given resistances. */
  lemma MatrixIsNetwork(g: Grid)
    requires g.Valid()
    ensures IsNetwork(g, g.Matrix())
  {
    forall l: int, j: int, i: int, m: int, k: int, h: int, val: real | g.Has(l, j, i) && g.Has(m, k, h) && (l, j, i) != (m, k, h)
      ensures Entry(g.Node(l, j, i), g.Node(m, k, h), val) in g.Matrix() <==> Joins(g, l, j, i, m, k, h, val)
    {
      EntryJoins(g, l, j, i, m, k, h, val);
    }
  }

  lemma EntryJoins(g: Grid, l: int, j: int, i: int, m: int, k: int, h: int, val: real)
    requires g.Valid() && g.Has(l, j, i) && g.Has(m, k, h) && (l, j, i) != (m, k, h)
    ensures Entry(g.Node(l, j, i), g.Node(m, k, h), val) in g.Matrix() <==> Joins(g, l, j, i, m, k, h, val)
  {
    hide Grid.Node, Grid.Matrix, Grid.Lower, Grid.Upper;
    var e := Entry(g.Node(l, j, i), g.Node(m, k, h), val);
    NodeIs(g, l, j, i);
    NodesDiffer(g, l, j, i, m, k, h);
    InMatrixExactly(g, e);
    assert e != g.Diagonal(l, j, i);
    LowerJoins(g, l, j, i, m, k, h, val);
    UpperJoins(g, l, j, i, m, k, h, val);
  }
}
