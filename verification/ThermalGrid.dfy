/**
  The thermal grid and its conductance matrix (src/thermal_solver.c). Resistances are given as exact
  positive reals.
 */
module ThermalGrid {
  import opened Arithmetic

  /** One nonzero entry of the matrix. */
  datatype Entry = Entry(row: int, col: int, val: real)

  /**
    A stack of `numLayer` layers of dimX x dimZ nodes on a heat sink, which is layer 0. `rvert` is the vertical
    resistance of a node, by i, j and layer; `rhoriX` and `rhoriZ` are the lateral ones of a layer.
   */
  datatype Grid = Grid(dimX: nat, dimZ: nat, numLayer: nat, rvert: (int, int, int) -> real, rhoriX: int -> real, rhoriZ: int -> real, ramb: real) {
    function Plane(): nat {
      dimX * dimZ
    }

    function Nodes(): nat {
      Plane() * (numLayer + 1)
    }

    ghost predicate Valid() {
      dimX >= 1 && dimZ >= 1 && ramb > 0.0 && (forall i, j, l :: rvert(i, j, l) > 0.0) && (forall l :: rhoriX(l) > 0.0 && rhoriZ(l) > 0.0)
    }

    predicate Has(l: int, j: int, i: int) {
      0 <= l <= numLayer && 0 <= j < dimZ && 0 <= i < dimX
    }

    /** The number of the node at (i, j) of layer `l`. */
    function Node(l: int, j: int, i: int): int {
      l * Plane() + j * dimX + i
    }

    function Vertical(l: int, j: int, i: int, m: int): real
      requires Valid()
    {
      -1.0 / (rvert(i, j, l) / 2.0 + rvert(i, j, m) / 2.0)
    }

    function LateralX(l: int): real
      requires Valid()
    {
      -1.0 / rhoriX(l)
    }

    function LateralZ(l: int): real
      requires Valid()
    {
      -1.0 / rhoriZ(l)
    }

    /** The conductance of a node to the ambient. */
    function Ambient(v: int): real
      requires Valid()
    {
      if v < Plane() then 1.0 / ramb else 0.0
    }

    /** The entries of a node's row left of the diagonal. */
    function Lower(l: int, j: int, i: int): seq<Entry>
      requires Valid()
    {
      var v := Node(l, j, i);
      (if l > 0 then [Entry(v, Node(l - 1, j, i), Vertical(l, j, i, l - 1))] else []) +
      (if j > 0 then [Entry(v, Node(l, j - 1, i), LateralZ(l))] else []) +
      (if i > 0 then [Entry(v, Node(l, j, i - 1), LateralX(l))] else [])
    }

    /** ... and right of it. */
    function Upper(l: int, j: int, i: int): seq<Entry>
      requires Valid()
    {
      var v := Node(l, j, i);
      (if i + 1 < dimX then [Entry(v, Node(l, j, i + 1), LateralX(l))] else []) +
      (if j + 1 < dimZ then [Entry(v, Node(l, j + 1, i), LateralZ(l))] else []) +
      (if l < numLayer then [Entry(v, Node(l + 1, j, i), Vertical(l, j, i, l + 1))] else [])
    }

    /** The diagonal balances the rest of the row and adds the conductance to the ambient. */
    function Diagonal(l: int, j: int, i: int): Entry
      requires Valid()
    {
      var v := Node(l, j, i);
      Entry(v, v, -Sum(Lower(l, j, i) + Upper(l, j, i)) + Ambient(v))
    }

    function Row(l: int, j: int, i: int): seq<Entry>
      requires Valid()
    {
      Lower(l, j, i) + [Diagonal(l, j, i)] + Upper(l, j, i)
    }

    function RowAt(v: nat): seq<Entry>
      requires Valid()
    {
      Row(v / dimX / dimZ, v / dimX % dimZ, v % dimX)
    }

    /** The rows of all nodes, in the order of their numbers. */
    function Rows(): (rows: seq<seq<Entry>>)
      requires Valid()
      ensures |rows| == Nodes() && forall v | 0 <= v < Nodes() :: rows[v] == RowAt(v)
    {
      seq(Nodes(), v requires 0 <= v < Nodes() => RowAt(v))
    }

    function Matrix(): seq<Entry>
      requires Valid()
    {
      Joined(Rows(), Nodes())
    }
  }

  /** The first `n` rows, one after the other. */
  function Joined(rows: seq<seq<Entry>>, n: nat): seq<Entry>
    requires n <= |rows|
  {
    if n == 0 then [] else Joined(rows, n - 1) + rows[n - 1]
  }

  function Sum(s: seq<Entry>): real {
    if s == [] then 0.0 else Sum(s[..|s| - 1]) + s[|s| - 1].val
  }

  lemma {:induction false} SumJoin(a: seq<Entry>, b: seq<Entry>)
    ensures Sum(a + b) == Sum(a) + Sum(b)
  {
    if b == [] {
      assert a + b == a;
    } else {
      SumJoin(a, b[..|b| - 1]);
      assert (a + b)[..|a + b| - 1] == a + b[..|b| - 1];
    }
  }

  // ----- numbering

  lemma NodeIs(g: Grid, l: int, j: int, i: int)
    requires g.Valid() && g.Has(l, j, i)
    ensures var v := g.Node(l, j, i); 0 <= v < g.Nodes() && v / g.dimX / g.dimZ == l && v / g.dimX % g.dimZ == j && v % g.dimX == i
    ensures g.Node(l, j, i) < g.Plane() <==> l == 0
  {
    Numbered(g.dimX, g.dimZ, l, j, i);
    InPlane(g.dimX, g.dimZ, j, i);
    InStack(g.Plane(), g.numLayer + 1, l, j * g.dimX + i);
  }

  lemma Numbered(x: nat, z: nat, l: nat, j: nat, i: nat)
    requires i < x && j < z
    ensures var v := l * (x * z) + j * x + i; v >= 0 && v / x / z == l && v / x % z == j && v % x == i
  {
    var q, v := z * l + j, l * (x * z) + j * x + i;
    Associates(x, z, l);
    Distributes(x, z * l, j);
    MultiplesApart(q, x);
    QuotientUnique(v, x, q, i);
    QuotientUnique(q, z, l, j);
  }

  lemma InPlane(x: nat, z: nat, j: nat, i: nat)
    requires i < x && j < z
    ensures 0 <= j * x + i < x * z
  {
    MultiplesApart(j, x);
    MultiplesApart(z - j, x);
    Distributes(x, z, -(j as int));
  }

  lemma InStack(plane: nat, n: nat, l: nat, r: nat)
    requires r < plane && l < n
    ensures 0 <= l * plane + r < plane * n && (l * plane + r < plane <==> l == 0)
  {
    MultiplesApart(l, plane);
    MultiplesApart(n - l, plane);
    Distributes(plane, n, -(l as int));
  }

  lemma NodeSteps(g: Grid, l: int, j: int, i: int)
    ensures g.Node(l, j, i + 1) == g.Node(l, j, i) + 1
    ensures g.Node(l, j + 1, i) == g.Node(l, j, i) + g.dimX
    ensures g.Node(l + 1, j, i) == g.Node(l, j, i) + g.Plane()
    ensures g.Node(l, j, g.dimX) == g.Node(l, j + 1, 0) && g.Node(l, g.dimZ, 0) == g.Node(l + 1, 0, 0)
  {
    assert (j + 1) * g.dimX == j * g.dimX + g.dimX && (l + 1) * g.Plane() == l * g.Plane() + g.Plane();
    assert g.dimZ * g.dimX == g.Plane();
  }

  lemma Coordinates(g: Grid, v: nat) returns (l: nat, j: nat, i: nat)
    requires g.dimX >= 1 && g.dimZ >= 1
    ensures l == v / g.dimX / g.dimZ && j == v / g.dimX % g.dimZ && i == v % g.dimX
    ensures j < g.dimZ && i < g.dimX && g.Node(l, j, i) == v
  {
    var q;
    q, i := DividesInto(v, g.dimX);
    l, j := DividesInto(q, g.dimZ);
    Associates(g.dimX, g.dimZ, l);
    Distributes(g.dimX, g.dimZ * l, j);
  }

  /** Every number below the node count is a node's. */
  lemma NodeAt(g: Grid, v: nat)
    requires g.Valid() && v < g.Nodes()
    ensures g.Has(v / g.dimX / g.dimZ, v / g.dimX % g.dimZ, v % g.dimX)
    ensures g.Node(v / g.dimX / g.dimZ, v / g.dimX % g.dimZ, v % g.dimX) == v
  {
    var l, j, i := Coordinates(g, v);
    LayerBound(g, l, j, i, v);
  }

  lemma LayerBound(g: Grid, l: nat, j: nat, i: nat, v: nat)
    requires g.Valid() && v == g.Node(l, j, i) && v < g.Nodes()
    ensures l <= g.numLayer
  {
    MultiplesApart(l - g.numLayer - 1, g.Plane());
    Distributes(g.Plane(), l, -(g.numLayer + 1));
    assert j * g.dimX >= 0;
  }

  // ----- the matrix

  ghost predicate Increasing(s: seq<Entry>) {
    forall a, b | 0 <= a < b < |s| :: s[a].col < s[b].col
  }

  /** How far apart the numbers of neighbours are. */
  lemma Strides(g: Grid, l: int, j: int, i: int)
    requires g.Valid()
    ensures g.Node(l, j, i - 1) == g.Node(l, j, i) - 1 && g.Node(l, j, i + 1) == g.Node(l, j, i) + 1
    ensures g.Node(l, j - 1, i) == g.Node(l, j, i) - g.dimX && g.Node(l, j + 1, i) == g.Node(l, j, i) + g.dimX
    ensures g.Node(l - 1, j, i) == g.Node(l, j, i) - g.Plane() && g.Node(l + 1, j, i) == g.Node(l, j, i) + g.Plane()
    ensures g.Plane() >= g.dimX >= 1 && (g.dimZ > 1 ==> g.Plane() > g.dimX)
  {
    NodeSteps(g, l - 1, j, i);
    NodeSteps(g, l, j - 1, i);
    NodeSteps(g, l, j, i - 1);
    NodeSteps(g, l, j, i);
    MultiplesApart(g.dimZ - 1, g.dimX);
    Distributes(g.dimX, g.dimZ - 1, 1);
  }

  /** Entries of row `v`, off the diagonal. */
  ghost predicate OffDiagonal(s: seq<Entry>, v: int, left: bool) {
    Increasing(s) && forall e | e in s :: e.row == v && e.val < 0.0 && if left then e.col < v else e.col > v
  }

  lemma Negative(x: real)
    requires x > 0.0
    ensures -1.0 / x < 0.0
  {
  }

  lemma LowerShape(g: Grid, l: int, j: int, i: int)
    requires g.Valid() && g.Has(l, j, i)
    ensures OffDiagonal(g.Lower(l, j, i), g.Node(l, j, i), true)
  {
    Strides(g, l, j, i);
    Negative(g.rvert(i, j, l) / 2.0 + g.rvert(i, j, l - 1) / 2.0);
    Negative(g.rhoriX(l));
    Negative(g.rhoriZ(l));
  }

  lemma UpperShape(g: Grid, l: int, j: int, i: int)
    requires g.Valid() && g.Has(l, j, i)
    ensures OffDiagonal(g.Upper(l, j, i), g.Node(l, j, i), false)
  {
    Strides(g, l, j, i);
    Negative(g.rvert(i, j, l) / 2.0 + g.rvert(i, j, l + 1) / 2.0);
    Negative(g.rhoriX(l));
    Negative(g.rhoriZ(l));
  }

  /** Each row lists its columns in strictly increasing order. */
  lemma RowsIncrease(g: Grid, l: int, j: int, i: int)
    requires g.Valid() && g.Has(l, j, i)
    ensures Increasing(g.Row(l, j, i))
  {
    LowerShape(g, l, j, i);
    UpperShape(g, l, j, i);
    SidesIncrease(g.Lower(l, j, i), g.Diagonal(l, j, i), g.Upper(l, j, i));
  }

  lemma SidesIncrease(lower: seq<Entry>, d: Entry, upper: seq<Entry>)
    requires OffDiagonal(lower, d.col, true) && OffDiagonal(upper, d.col, false)
    ensures Increasing(lower + [d] + upper)
  {
    var row := lower + [d] + upper;
    forall a, b | 0 <= a < b < |row|
      ensures row[a].col < row[b].col
    {
      assert a < |lower| ==> row[a] == lower[a] && row[a] in lower;
      assert a > |lower| ==> row[a] == upper[a - |lower| - 1];
      assert b < |lower| ==> row[b] == lower[b];
      assert b > |lower| ==> row[b] == upper[b - |lower| - 1] && row[b] in upper;
    }
  }

  /** Each row sums to zero, or on the heat sink to the conductance to the ambient. */
  lemma RowSums(g: Grid, l: int, j: int, i: int)
    requires g.Valid() && g.Has(l, j, i)
    ensures Sum(g.Row(l, j, i)) == if l == 0 then 1.0 / g.ramb else 0.0
  {
    NodeIs(g, l, j, i);
    var lower, upper, diagonal := g.Lower(l, j, i), g.Upper(l, j, i), g.Diagonal(l, j, i);
    SumJoin(lower, upper);
    SumJoin(lower + [diagonal], upper);
    SumJoin(lower, [diagonal]);
    assert Sum([diagonal]) == diagonal.val;
  }

  /** The row of a neighbour holds the mirror image of an entry. */
  lemma RowsMirror(g: Grid, l: int, j: int, i: int, e: Entry)
    requires g.Valid() && g.Has(l, j, i) && e in g.Row(l, j, i)
    ensures 0 <= e.col < g.Nodes() && Entry(e.col, e.row, e.val) in g.RowAt(e.col)
  {
    if e in g.Lower(l, j, i) {
      LowerMirrors(g, l, j, i, e);
    } else if e in g.Upper(l, j, i) {
      UpperMirrors(g, l, j, i, e);
    } else {
      NodeIs(g, l, j, i);
      assert e == g.Diagonal(l, j, i);
    }
  }

  lemma LowerMirrors(g: Grid, l: int, j: int, i: int, e: Entry)
    requires g.Valid() && g.Has(l, j, i) && e in g.Lower(l, j, i)
    ensures 0 <= e.col < g.Nodes() && Entry(e.col, e.row, e.val) in g.RowAt(e.col)
  {
    if l > 0 && e == Entry(g.Node(l, j, i), g.Node(l - 1, j, i), g.Vertical(l, j, i, l - 1)) {
      BelowMirrors(g, l, j, i, e);
    } else if j > 0 && e == Entry(g.Node(l, j, i), g.Node(l, j - 1, i), g.LateralZ(l)) {
      BackMirrors(g, l, j, i, e);
    } else {
      LowerRest(g, l, j, i, e);
      LeftMirrors(g, l, j, i, e);
    }
  }

  lemma BelowMirrors(g: Grid, l: int, j: int, i: int, e: Entry)
    requires g.Valid() && g.Has(l, j, i) && l > 0 && e == Entry(g.Node(l, j, i), g.Node(l - 1, j, i), g.Vertical(l, j, i, l - 1))
    ensures 0 <= e.col < g.Nodes() && Entry(e.col, e.row, e.val) in g.RowAt(e.col)
  {
    hide Grid.RowAt, Grid.Node, Grid.Vertical, Grid.Nodes;
    MirrorUp(g, l - 1, j, i);
  }

  lemma BackMirrors(g: Grid, l: int, j: int, i: int, e: Entry)
    requires g.Valid() && g.Has(l, j, i) && j > 0 && e == Entry(g.Node(l, j, i), g.Node(l, j - 1, i), g.LateralZ(l))
    ensures 0 <= e.col < g.Nodes() && Entry(e.col, e.row, e.val) in g.RowAt(e.col)
  {
    MirrorBack(g, l, j - 1, i);
  }

  lemma LeftMirrors(g: Grid, l: int, j: int, i: int, e: Entry)
    requires g.Valid() && g.Has(l, j, i) && i > 0 && e == Entry(g.Node(l, j, i), g.Node(l, j, i - 1), g.LateralX(l))
    ensures 0 <= e.col < g.Nodes() && Entry(e.col, e.row, e.val) in g.RowAt(e.col)
  {
    MirrorRight(g, l, j, i - 1);
  }

  lemma LowerRest(g: Grid, l: int, j: int, i: int, e: Entry)
    requires g.Valid() && e in g.Lower(l, j, i)
    requires !(l > 0 && e == Entry(g.Node(l, j, i), g.Node(l - 1, j, i), g.Vertical(l, j, i, l - 1)))
    requires !(j > 0 && e == Entry(g.Node(l, j, i), g.Node(l, j - 1, i), g.LateralZ(l)))
    ensures i > 0 && e == Entry(g.Node(l, j, i), g.Node(l, j, i - 1), g.LateralX(l))
  {
  }

  lemma UpperMirrors(g: Grid, l: int, j: int, i: int, e: Entry)
    requires g.Valid() && g.Has(l, j, i) && e in g.Upper(l, j, i)
    ensures 0 <= e.col < g.Nodes() && Entry(e.col, e.row, e.val) in g.RowAt(e.col)
  {
    if l < g.numLayer {
      MirrorUp(g, l, j, i);
    }
    if j + 1 < g.dimZ {
      MirrorBack(g, l, j, i);
    }
    if i + 1 < g.dimX {
      MirrorRight(g, l, j, i);
    }
  }

  /** Vertical neighbours hold the same conductance in each other's rows; likewise the lateral ones below. */
  lemma MirrorUp(g: Grid, l: int, j: int, i: int)
    requires g.Valid() && g.Has(l, j, i) && g.Has(l + 1, j, i)
    ensures var v, w := g.Node(l, j, i), g.Node(l + 1, j, i);
            0 <= v < g.Nodes() && 0 <= w < g.Nodes() &&
            Entry(v, w, g.Vertical(l, j, i, l + 1)) in g.RowAt(v) && Entry(w, v, g.Vertical(l, j, i, l + 1)) in g.RowAt(w) &&
            g.Vertical(l, j, i, l + 1) == g.Vertical(l + 1, j, i, l)
  {
    NodeIs(g, l, j, i);
    NodeIs(g, l + 1, j, i);
    var v, w, y := g.Node(l, j, i), g.Node(l + 1, j, i), g.Vertical(l, j, i, l + 1);
    assert y == g.Vertical(l + 1, j, i, l);
    assert Entry(v, w, y) in g.Upper(l, j, i) && Entry(w, v, y) in g.Lower(l + 1, j, i);
  }

  lemma MirrorBack(g: Grid, l: int, j: int, i: int)
    requires g.Valid() && g.Has(l, j, i) && g.Has(l, j + 1, i)
    ensures var v, w := g.Node(l, j, i), g.Node(l, j + 1, i);
            0 <= v < g.Nodes() && 0 <= w < g.Nodes() &&
            Entry(v, w, g.LateralZ(l)) in g.RowAt(v) && Entry(w, v, g.LateralZ(l)) in g.RowAt(w)
  {
    NodeIs(g, l, j, i);
    NodeIs(g, l, j + 1, i);
    var v, w, y := g.Node(l, j, i), g.Node(l, j + 1, i), g.LateralZ(l);
    assert Entry(v, w, y) in g.Upper(l, j, i) && Entry(w, v, y) in g.Lower(l, j + 1, i);
  }

  lemma MirrorRight(g: Grid, l: int, j: int, i: int)
    requires g.Valid() && g.Has(l, j, i) && g.Has(l, j, i + 1)
    ensures var v, w := g.Node(l, j, i), g.Node(l, j, i + 1);
            0 <= v < g.Nodes() && 0 <= w < g.Nodes() &&
            Entry(v, w, g.LateralX(l)) in g.RowAt(v) && Entry(w, v, g.LateralX(l)) in g.RowAt(w)
  {
    NodeIs(g, l, j, i);
    NodeIs(g, l, j, i + 1);
    var v, w, y := g.Node(l, j, i), g.Node(l, j, i + 1), g.LateralX(l);
    assert Entry(v, w, y) in g.Upper(l, j, i) && Entry(w, v, y) in g.Lower(l, j, i + 1);
  }

  // ----- finding rows in the matrix

  lemma {:induction false} JoinedGrows(rows: seq<seq<Entry>>, m: nat, n: nat)
    requires m <= n <= |rows|
    ensures Joined(rows, m) <= Joined(rows, n)
  {
    if m < n {
      JoinedGrows(rows, m, n - 1);
    }
  }

  /** The entries between the ends of two successive prefixes are a row. */
  lemma RowSlice(rows: seq<seq<Entry>>, v: nat, n: nat)
    requires v < n <= |rows|
    ensures |Joined(rows, v)| + |rows[v]| == |Joined(rows, v + 1)| <= |Joined(rows, n)|
    ensures Joined(rows, n)[|Joined(rows, v)|..|Joined(rows, v + 1)|] == rows[v]
  {
    JoinedGrows(rows, v + 1, n);
    assert Joined(rows, v + 1) == Joined(rows, v) + rows[v];
  }

  lemma {:induction false} EntryHasRow(rows: seq<seq<Entry>>, n: nat, e: Entry) returns (v: nat)
    requires n <= |rows| && e in Joined(rows, n)
    ensures v < n && e in rows[v]
  {
    if e in rows[n - 1] {
      v := n - 1;
    } else {
      v := EntryHasRow(rows, n - 1, e);
    }
  }

  lemma RowsOfRow(g: Grid, v: nat)
    requires g.Valid() && v < g.Nodes()
    ensures forall e | e in g.RowAt(v) :: e.row == v
  {
    NodeAt(g, v);
    LowerShape(g, v / g.dimX / g.dimZ, v / g.dimX % g.dimZ, v % g.dimX);
    UpperShape(g, v / g.dimX / g.dimZ, v / g.dimX % g.dimZ, v % g.dimX);
  }

  /** An entry is in the matrix exactly when it is in the row it names. */
  lemma InMatrixExactly(g: Grid, e: Entry)
    requires g.Valid()
    ensures e in g.Matrix() <==> 0 <= e.row < g.Nodes() && e in g.RowAt(e.row)
  {
    if e in g.Matrix() {
      var v := EntryHasRow(g.Rows(), g.Nodes(), e);
      RowsOfRow(g, v);
    }
    if 0 <= e.row < g.Nodes() && e in g.RowAt(e.row) {
      RowSlice(g.Rows(), e.row, g.Nodes());
    }
  }

  /** The matrix is symmetric. */
  lemma MatrixIsSymmetric(g: Grid, e: Entry)
    requires g.Valid() && e in g.Matrix()
    ensures Entry(e.col, e.row, e.val) in g.Matrix()
  {
    InMatrixExactly(g, e);
    NodeAt(g, e.row);
    RowsMirror(g, e.row / g.dimX / g.dimZ, e.row / g.dimX % g.dimZ, e.row % g.dimX, e);
    InMatrixExactly(g, Entry(e.col, e.row, e.val));
  }
}
