/** Building the conductance matrix: counting, filling and sorting rows, and its compressed form (src/thermal_solver.c). */
module ThermalAssembly {
  import opened Arithmetic
  import opened ThermalGrid
  import opened ThermalNetwork

  // ----- counting

  /** How many neighbours a node has. */
  function Degree(g: Grid, l: int, j: int, i: int): int
    requires g.Valid()
  {
    |g.Lower(l, j, i)| + |g.Upper(l, j, i)|
  }

  /** Neighbours of the first `i` nodes of line `j`. */
  function Along(g: Grid, l: int, j: int, i: nat): int
    requires g.Valid()
  {
    if i == 0 then 0 else Along(g, l, j, i - 1) + Degree(g, l, j, i - 1)
  }

  /** ... of the first `i` nodes of each of the first `j` lines. */
  function LineByLine(g: Grid, l: int, j: nat, i: nat): int
    requires g.Valid()
  {
    if j == 0 then 0 else LineByLine(g, l, j - 1, i) + Along(g, l, j - 1, i)
  }

  /** Neighbours of the first `j` nodes across, at position `i` of each line. */
  function Across(g: Grid, l: int, i: int, j: nat): int
    requires g.Valid()
  {
    if j == 0 then 0 else Across(g, l, i, j - 1) + Degree(g, l, j - 1, i)
  }

  function CrossByCross(g: Grid, l: int, i: nat, j: nat): int
    requires g.Valid()
  {
    if i == 0 then 0 else CrossByCross(g, l, i - 1, j) + Across(g, l, i - 1, j)
  }

  function Layers(g: Grid, l: nat): int
    requires g.Valid()
  {
    if l == 0 then 0 else Layers(g, l - 1) + CrossByCross(g, l - 1, g.dimX, g.dimZ)
  }

  lemma {:induction false} OneMoreAcross(g: Grid, l: int, j: nat, i: nat)
    requires g.Valid() && i > 0
    ensures LineByLine(g, l, j, i) == LineByLine(g, l, j, i - 1) + Across(g, l, i - 1, j)
  {
    if j > 0 {
      OneMoreAcross(g, l, j - 1, i);
    }
  }

  /** Both ways through a layer count the same. */
  lemma {:induction false} OrdersAgree(g: Grid, l: int, j: nat, i: nat)
    requires g.Valid()
    ensures LineByLine(g, l, j, i) == CrossByCross(g, l, i, j)
  {
    if i == 0 {
      NothingAlong(g, l, j);
    } else {
      OrdersAgree(g, l, j, i - 1);
      OneMoreAcross(g, l, j, i);
    }
  }

  lemma {:induction false} NothingAlong(g: Grid, l: int, j: nat)
    requires g.Valid()
    ensures LineByLine(g, l, j, 0) == 0
  {
    if j > 0 {
      NothingAlong(g, l, j - 1);
    }
  }

  function Length(rows: seq<seq<Entry>>, v: int): int
    requires 0 <= v <= |rows|
  {
    |Joined(rows, v)|
  }

  lemma {:induction false} EntriesAlong(g: Grid, rows: seq<seq<Entry>>, v: nat, l: int, j: int, i: nat)
    requires g.Valid() && v + i <= |rows|
    requires forall k | 0 <= k < i :: |rows[v + k]| == Degree(g, l, j, k) + 1
    ensures Length(rows, v + i) == Length(rows, v) + Along(g, l, j, i) + i
  {
    if i > 0 {
      EntriesAlong(g, rows, v, l, j, i - 1);
      assert |rows[v + (i - 1)]| == Degree(g, l, j, i - 1) + 1;
    }
  }

  /** `rows` has, at each node's number, one entry more than the node has neighbours. */
  ghost predicate Sized(g: Grid, rows: seq<seq<Entry>>)
    requires g.Valid()
  {
    |rows| == g.Nodes() &&
    forall l: int, j: int, i: int {:trigger g.Has(l, j, i)} | g.Has(l, j, i) ::
      0 <= g.Node(l, j, i) < |rows| && |rows[g.Node(l, j, i)]| == Degree(g, l, j, i) + 1
  }

  lemma RowsAreSized(g: Grid)
    requires g.Valid()
    ensures Sized(g, g.Rows())
  {
    forall l: int, j: int, i: int | g.Has(l, j, i)
      ensures 0 <= g.Node(l, j, i) < g.Nodes() && |g.Rows()[g.Node(l, j, i)]| == Degree(g, l, j, i) + 1
    {
      NodeIs(g, l, j, i);
      assert g.Rows()[g.Node(l, j, i)] == g.Row(l, j, i);
    }
  }

  /** One line of a layer. */
  lemma EntriesInLine(g: Grid, rows: seq<seq<Entry>>, l: int, j: int, v: int)
    requires g.Valid() && Sized(g, rows) && 0 <= l <= g.numLayer && 0 <= j < g.dimZ && v == g.Node(l, j, 0)
    ensures 0 <= v <= v + g.dimX <= |rows| && Length(rows, v + g.dimX) == Length(rows, v) + Along(g, l, j, g.dimX) + g.dimX
  {
    assert g.Has(l, j, 0) && g.Has(l, j, g.dimX - 1);
    forall k | 0 <= k < g.dimX
      ensures 0 <= v + k < |rows| && |rows[v + k]| == Degree(g, l, j, k) + 1
    {
      assert g.Has(l, j, k) && g.Node(l, j, k) == v + k;
    }
    EntriesAlong(g, rows, v, l, j, g.dimX);
  }

  /** The entries before line `j` of layer `l`. */
  ghost function Start(g: Grid, rows: seq<seq<Entry>>, l: int, j: int): int {
    if 0 <= g.Node(l, j, 0) <= |rows| then Length(rows, g.Node(l, j, 0)) else 0
  }

  lemma LineStep(g: Grid, rows: seq<seq<Entry>>, l: int, j: int)
    requires g.Valid() && Sized(g, rows) && 0 <= l <= g.numLayer && 0 <= j < g.dimZ
    ensures Start(g, rows, l, j + 1) == Start(g, rows, l, j) + Along(g, l, j, g.dimX) + g.dimX
  {
    EntriesInLine(g, rows, l, j, g.Node(l, j, 0));
    NextLine(g, l, j);
  }

  lemma NextLine(g: Grid, l: int, j: int)
    ensures g.Node(l, j + 1, 0) == g.Node(l, j, 0) + g.dimX
  {
    NodeSteps(g, l, j, 0);
  }

  lemma NextLayer(g: Grid, l: int)
    ensures g.Node(l, g.dimZ, 0) == g.Node(l + 1, 0, 0)
  {
    NodeSteps(g, l, 0, 0);
  }

  lemma {:induction false} EntriesInLines(g: Grid, rows: seq<seq<Entry>>, l: int, j: nat)
    requires g.Valid() && Sized(g, rows) && 0 <= l <= g.numLayer && j <= g.dimZ
    ensures Start(g, rows, l, j) == Start(g, rows, l, 0) + LineByLine(g, l, j, g.dimX) + j * g.dimX
  {
    if j > 0 {
      EntriesInLines(g, rows, l, j - 1);
      LineStep(g, rows, l, j - 1);
    }
  }

  /** The rows of the first layers hold their nodes' neighbours and one diagonal each. */
  lemma {:induction false} EntriesInLayers(g: Grid, rows: seq<seq<Entry>>, l: nat)
    requires g.Valid() && Sized(g, rows) && l <= g.numLayer + 1
    ensures Start(g, rows, l, 0) == Layers(g, l) + l * g.Plane()
  {
    if l > 0 {
      EntriesInLayers(g, rows, l - 1);
      EntriesInLines(g, rows, l - 1, g.dimZ);
      OrdersAgree(g, l - 1, g.dimZ, g.dimX);
      NextLayer(g, l - 1);
      assert Start(g, rows, l - 1, g.dimZ) == Start(g, rows, l, 0);
      Distributes(g.Plane(), l - 1, 1);
    } else {
      assert g.Node(0, 0, 0) == 0;
    }
  }

  /** Counting neighbours and adding the diagonals gives the size of the matrix. */
  lemma WholeCount(g: Grid)
    requires g.Valid()
    ensures |g.Matrix()| == Layers(g, g.numLayer + 1) + (g.numLayer + 1) * g.Plane()
  {
    RowsAreSized(g);
    EntriesInLayers(g, g.Rows(), g.numLayer + 1);
    LastNode(g);
    assert Start(g, g.Rows(), g.numLayer + 1, 0) == Length(g.Rows(), g.Nodes());
  }

  lemma LastNode(g: Grid)
    ensures g.Node(g.numLayer + 1, 0, 0) == g.Nodes() && g.Nodes() == (g.numLayer + 1) * g.Plane()
  {
  }

  method CountOne(g: Grid, l: int, j: int, i: int, before: int) returns (count: int)
    requires g.Valid() && g.Has(l, j, i)
    ensures count == before + Degree(g, l, j, i)
  {
    count := before;
    if i - 1 >= 0 {
      count := count + 1;
    }
    if i + 1 < g.dimX {
      count := count + 1;
    }
    if j - 1 >= 0 {
      count := count + 1;
    }
    if j + 1 < g.dimZ {
      count := count + 1;
    }
    if l < g.numLayer {
      count := count + 1;
    }
    if l > 0 {
      count := count + 1;
    }
    DegreeIs(g, l, j, i);
  }

  lemma DegreeIs(g: Grid, l: int, j: int, i: int)
    requires g.Valid()
    ensures Degree(g, l, j, i) ==
            (if i > 0 then 1 else 0) + (if i + 1 < g.dimX then 1 else 0) + (if j > 0 then 1 else 0) + (if j + 1 < g.dimZ then 1 else 0) +
            (if l < g.numLayer then 1 else 0) + (if l > 0 then 1 else 0)
  {
  }

  /** The first traversal: layer by layer, along i and then along j. */
  method CountEntries(g: Grid) returns (count: nat)
    requires g.Valid()
    ensures count == |g.Matrix()|
  {
    var off := 0;
    var l := 0;
    while l < g.numLayer + 1
      invariant 0 <= l <= g.numLayer + 1 && off == Layers(g, l)
    {
      var i := 0;
      while i < g.dimX
        invariant 0 <= i <= g.dimX && off == Layers(g, l) + CrossByCross(g, l, i, g.dimZ)
      {
        var j := 0;
        while j < g.dimZ
          invariant 0 <= j <= g.dimZ && off == Layers(g, l) + CrossByCross(g, l, i, g.dimZ) + Across(g, l, i, j)
        {
          off := CountOne(g, l, j, i, off);
          j := j + 1;
        }
        i := i + 1;
      }
      l := l + 1;
    }
    WholeCount(g);
    LastNode(g);
    count := off + g.dimX * g.dimZ * (g.numLayer + 1);
  }

  // ----- filling

  method Put(midx: array<Entry>, idx: nat, e: Entry)
    requires idx < midx.Length
    modifies midx
    ensures midx[..idx + 1] == old(midx[..idx]) + [e]
  {
    midx[idx] := e;
  }

  method FillLower(g: Grid, midx: array<Entry>, start: nat, l: int, j: int, i: int) returns (idx: nat)
    requires g.Valid() && g.Has(l, j, i) && start + |g.Lower(l, j, i)| <= midx.Length
    modifies midx
    ensures idx == start + |g.Lower(l, j, i)| && midx[..idx] == old(midx[..start]) + g.Lower(l, j, i)
  {
    idx := start;
    var v := l * g.Plane() + j * g.dimX + i;
    if l > 0 {
      Put(midx, idx, Entry(v, (l - 1) * g.Plane() + j * g.dimX + i, -1.0 / (g.rvert(i, j, l) / 2.0 + g.rvert(i, j, l - 1) / 2.0)));
      idx := idx + 1;
    }
    if j - 1 >= 0 {
      Put(midx, idx, Entry(v, l * g.Plane() + (j - 1) * g.dimX + i, -1.0 / g.rhoriZ(l)));
      idx := idx + 1;
    }
    if i - 1 >= 0 {
      Put(midx, idx, Entry(v, l * g.Plane() + j * g.dimX + i - 1, -1.0 / g.rhoriX(l)));
      idx := idx + 1;
    }
  }

  method FillUpper(g: Grid, midx: array<Entry>, start: nat, l: int, j: int, i: int) returns (idx: nat)
    requires g.Valid() && g.Has(l, j, i) && start + |g.Upper(l, j, i)| <= midx.Length
    modifies midx
    ensures idx == start + |g.Upper(l, j, i)| && midx[..idx] == old(midx[..start]) + g.Upper(l, j, i)
  {
    idx := start;
    var v := l * g.Plane() + j * g.dimX + i;
    if i + 1 < g.dimX {
      Put(midx, idx, Entry(v, l * g.Plane() + j * g.dimX + i + 1, -1.0 / g.rhoriX(l)));
      idx := idx + 1;
    }
    if j + 1 < g.dimZ {
      Put(midx, idx, Entry(v, l * g.Plane() + (j + 1) * g.dimX + i, -1.0 / g.rhoriZ(l)));
      idx := idx + 1;
    }
    if l < g.numLayer {
      Put(midx, idx, Entry(v, (l + 1) * g.Plane() + j * g.dimX + i, -1.0 / (g.rvert(i, j, l) / 2.0 + g.rvert(i, j, l + 1) / 2.0)));
      idx := idx + 1;
    }
  }

  /** The diagonal takes the negated sum of the row so far, and on the heat sink the conductance to the ambient. */
  method DiagonalValue(g: Grid, midx: array<Entry>, from: nat, to: nat, v: int) returns (val: real)
    requires g.Valid() && from <= to <= midx.Length
    ensures val == -Sum(midx[from..to]) + g.Ambient(v)
  {
    val := 0.0;
    var k := from;
    while k < to
      invariant from <= k <= to && val == -Sum(midx[from..k])
    {
      val := val - midx[k].val;
      assert midx[from..k + 1][..k - from] == midx[from..k];
      k := k + 1;
    }
    if v < g.Plane() {
      val := val + 1.0 / g.ramb;
    }
  }

  /** The last entry of the row sinks past every entry of larger column. */
  method SiftLast(midx: array<Entry>, from: nat, to: nat, ghost lower: seq<Entry>, ghost upper: seq<Entry>, ghost e: Entry)
    requires from < to <= midx.Length && midx[from..to] == lower + upper + [e]
    requires (forall x | x in lower :: x.col < e.col) && forall x | x in upper :: x.col > e.col
    modifies midx
    ensures midx[..from] == old(midx[..from]) && midx[from..to] == lower + [e] + upper
  {
    ghost var all := lower + upper;
    var k := to - 2;
    while k >= from
      invariant from - 1 <= k <= to - 2 && |lower| <= k + 1 - from
      invariant midx[..from] == old(midx[..from])
      invariant midx[from..to] == all[..k + 1 - from] + [e] + all[k + 1 - from..]
      decreases k
    {
      ghost var n := k + 1 - from;
      assert midx[k + 1] == midx[from..to][n] == e;
      if n > 0 {
        assert midx[k] == midx[from..to][n - 1] == all[n - 1];
        assert all[n - 1] in if n <= |lower| then lower else upper;
      }
      if midx[k].col > midx[k + 1].col {
        ghost var was := midx[from..to];
        midx[k], midx[k + 1] := midx[k + 1], midx[k];
        assert midx[from..to] == was[n - 1 := e][n := all[n - 1]];
        assert midx[from..to] == all[..n - 1] + [e] + all[n - 1..];
      } else {
        break;
      }
      k := k - 1;
    }
    assert k + 1 - from == |lower|;
  }

  /** Appends the diagonal entry to the neighbours' and lets it sink to its place. */
  method InsertDiagonal(midx: array<Entry>, start: nat, idx: nat, e: Entry, ghost lower: seq<Entry>, ghost upper: seq<Entry>)
    requires start <= idx < midx.Length && midx[start..idx] == lower + upper
    requires (forall x | x in lower :: x.col < e.col) && forall x | x in upper :: x.col > e.col
    modifies midx
    ensures midx[..idx + 1] == old(midx[..start]) + (lower + [e] + upper)
  {
    ghost var before := midx[..start];
    assert midx[..idx] == before + (lower + upper);
    Put(midx, idx, e);
    assert midx[..idx + 1] == before + (lower + upper + [e]);
    assert midx[start..idx + 1] == midx[..idx + 1][start..] == lower + upper + [e];
    SiftLast(midx, start, idx + 1, lower, upper, e);
    assert midx[..idx + 1] == midx[..start] + midx[start..idx + 1];
  }

  method FillNeighbours(g: Grid, midx: array<Entry>, start: nat, l: int, j: int, i: int) returns (idx: nat)
    requires g.Valid() && g.Has(l, j, i) && start + |g.Lower(l, j, i) + g.Upper(l, j, i)| <= midx.Length
    modifies midx
    ensures idx == start + |g.Lower(l, j, i) + g.Upper(l, j, i)|
    ensures midx[..start] == old(midx[..start]) && midx[start..idx] == g.Lower(l, j, i) + g.Upper(l, j, i)
  {
    ghost var before := midx[..start];
    idx := FillLower(g, midx, start, l, j, i);
    idx := FillUpper(g, midx, idx, l, j, i);
    assert midx[..idx] == before + (g.Lower(l, j, i) + g.Upper(l, j, i));
    assert midx[start..idx] == midx[..idx][start..] && midx[..start] == midx[..idx][..start];
  }

  lemma RowParts(g: Grid, l: int, j: int, i: int) returns (lower: seq<Entry>, upper: seq<Entry>, d: Entry)
    requires g.Valid() && g.Has(l, j, i)
    ensures lower == g.Lower(l, j, i) && upper == g.Upper(l, j, i) && g.Row(l, j, i) == lower + [d] + upper
    ensures d.row == d.col == g.Node(l, j, i) && d.val == -Sum(lower + upper) + g.Ambient(d.col)
    ensures (forall x | x in lower :: x.col < d.col) && forall x | x in upper :: x.col > d.col
  {
    LowerShape(g, l, j, i);
    UpperShape(g, l, j, i);
    lower, upper, d := g.Lower(l, j, i), g.Upper(l, j, i), g.Diagonal(l, j, i);
  }

  /** Sums up the neighbours of node `v` into the diagonal entry, and puts that where it belongs. */
  method FinishRow(g: Grid, midx: array<Entry>, start: nat, idx: nat, v: int, ghost lower: seq<Entry>, ghost upper: seq<Entry>, ghost d: Entry)
    requires g.Valid() && start <= idx < midx.Length && midx[start..idx] == lower + upper
    requires d.row == d.col == v && d.val == -Sum(lower + upper) + g.Ambient(v)
    requires (forall x | x in lower :: x.col < d.col) && forall x | x in upper :: x.col > d.col
    modifies midx
    ensures midx[..idx + 1] == old(midx[..start]) + (lower + [d] + upper)
  {
    var diagonal := DiagonalValue(g, midx, start, idx, v);
    assert Entry(v, v, diagonal) == d;
    InsertDiagonal(midx, start, idx, Entry(v, v, diagonal), lower, upper);
  }

  /** The loop body of the second traversal: fills and sorts one row. */
  method FillRow(g: Grid, midx: array<Entry>, start: nat, l: int, j: int, i: int, ghost row: seq<Entry>) returns (idx: nat)
    requires g.Valid() && g.Has(l, j, i) && row == g.Row(l, j, i) && start + |row| <= midx.Length
    modifies midx
    ensures idx == start + |row| && midx[..idx] == old(midx[..start]) + row
  {
    hide Sum;
    ghost var lower, upper, d := RowParts(g, l, j, i);
    idx := FillNeighbours(g, midx, start, l, j, i);
    FinishRow(g, midx, start, idx, l * g.Plane() + j * g.dimX + i, lower, upper, d);
    idx := idx + 1;
  }

  /** `rows` has the row of each node at the node's number. */
  ghost predicate RowsAre(g: Grid, rows: seq<seq<Entry>>)
    requires g.Valid()
  {
    |rows| == g.Nodes() &&
    forall l: int, j: int, i: int {:trigger g.Has(l, j, i)} | g.Has(l, j, i) :: 0 <= g.Node(l, j, i) < |rows| && rows[g.Node(l, j, i)] == g.Row(l, j, i)
  }

  lemma RowsAreRows(g: Grid)
    requires g.Valid()
    ensures RowsAre(g, g.Rows())
  {
    forall l: int, j: int, i: int | g.Has(l, j, i)
      ensures 0 <= g.Node(l, j, i) < g.Nodes() && g.Rows()[g.Node(l, j, i)] == g.Row(l, j, i)
    {
      NodeIs(g, l, j, i);
    }
  }

  /** The array is filled with the rows of the first `v` nodes. */
  ghost predicate FilledTo(midx: array<Entry>, idx: int, rows: seq<seq<Entry>>, v: int)
    reads midx
  {
    0 <= v <= |rows| && 0 <= idx <= midx.Length == |Joined(rows, |rows|)| && midx[..idx] == Joined(rows, v)
  }

  method FillNode(g: Grid, midx: array<Entry>, start: nat, l: int, j: int, i: int, ghost rows: seq<seq<Entry>>, ghost v: int) returns (idx: nat)
    requires g.Valid() && g.Has(l, j, i) && FilledTo(midx, start, rows, v) && v < |rows| && rows[v] == g.Row(l, j, i)
    modifies midx
    ensures FilledTo(midx, idx, rows, v + 1)
  {
    RowSlice(rows, v, |rows|);
    idx := FillRow(g, midx, start, l, j, i, rows[v]);
  }

  lemma RowInLine(g: Grid, rows: seq<seq<Entry>>, l: int, j: int, i: int, v: int)
    requires g.Valid() && RowsAre(g, rows) && g.Has(l, j, i) && v == g.Node(l, j, 0)
    ensures 0 <= v + i < |rows| && rows[v + i] == g.Row(l, j, i)
  {
    assert g.Node(l, j, i) == v + i;
  }

  method FillLine(g: Grid, midx: array<Entry>, start: nat, l: int, j: int, ghost rows: seq<seq<Entry>>, ghost v: int) returns (idx: nat)
    requires g.Valid() && RowsAre(g, rows) && 0 <= l <= g.numLayer && 0 <= j < g.dimZ && v == g.Node(l, j, 0) && FilledTo(midx, start, rows, v)
    modifies midx
    ensures FilledTo(midx, idx, rows, v + g.dimX)
  {
    idx := start;
    var i := 0;
    while i < g.dimX
      invariant 0 <= i <= g.dimX && FilledTo(midx, idx, rows, v + i)
    {
      RowInLine(g, rows, l, j, i, v);
      idx := FillNode(g, midx, idx, l, j, i, rows, v + i);
      i := i + 1;
    }
  }

  method FillLayer(g: Grid, midx: array<Entry>, start: nat, l: int, ghost rows: seq<seq<Entry>>) returns (idx: nat)
    requires g.Valid() && RowsAre(g, rows) && 0 <= l <= g.numLayer && FilledTo(midx, start, rows, g.Node(l, 0, 0))
    modifies midx
    ensures FilledTo(midx, idx, rows, g.Node(l + 1, 0, 0))
  {
    idx := start;
    var j := 0;
    ghost var v := g.Node(l, 0, 0);
    while j < g.dimZ
      invariant 0 <= j <= g.dimZ && v == g.Node(l, j, 0) && FilledTo(midx, idx, rows, v)
    {
      idx := FillLine(g, midx, idx, l, j, rows, v);
      NextLine(g, l, j);
      v := v + g.dimX;
      j := j + 1;
    }
    NextLayer(g, l);
  }

  /** The second traversal: layer by layer, along j and then along i. */
  method FillAll(g: Grid, midx: array<Entry>, ghost rows: seq<seq<Entry>>)
    requires g.Valid() && RowsAre(g, rows) && midx.Length == |Joined(rows, |rows|)|
    modifies midx
    ensures midx[..] == Joined(rows, |rows|)
  {
    var idx := 0;
    var l := 0;
    FirstNode(g);
    while l < g.numLayer + 1
      invariant 0 <= l <= g.numLayer + 1 && FilledTo(midx, idx, rows, g.Node(l, 0, 0))
    {
      idx := FillLayer(g, midx, idx, l, rows);
      l := l + 1;
    }
    LastNode(g);
    assert midx[..idx] == midx[..];
  }

  lemma FirstNode(g: Grid)
    ensures g.Node(0, 0, 0) == 0
  {
  }

  /**
    The whole matrix: as many entries as the first traversal counted, written by the second one in a different
    order, end up as the rows of all nodes in the order of their numbers, each sorted by column.
   */
  method CalculateMidx(g: Grid) returns (midx: array<Entry>)
    requires g.Valid()
    ensures midx[..] == g.Matrix() && IsNetwork(g, midx[..])
  {
    MatrixIsNetwork(g);
    var count := CountEntries(g);
    midx := new Entry[count](_ => Entry(0, 0, 0.0));
    RowsAreRows(g);
    FillAll(g, midx, g.Rows());
  }

  // ----- the compressed form

  /** Rows as the matrix has them: none empty, each entry in the row it names. */
  ghost predicate InOrder(rows: seq<seq<Entry>>) {
    rows != [] && forall v | 0 <= v < |rows| :: rows[v] != [] && forall e | e in rows[v] :: e.row == v
  }

  lemma RowsInOrder(g: Grid)
    requires g.Valid()
    ensures InOrder(g.Rows())
  {
    forall v | 0 <= v < g.Nodes()
      ensures g.Rows()[v] != [] && forall e | e in g.Rows()[v] :: e.row == v
    {
      RowsOfRow(g, v);
    }
    assert g.Nodes() >= 1 by {
      MultiplesApart(g.numLayer + 1, g.Plane());
      MultiplesApart(g.dimX, g.dimZ);
    }
  }

  /** Row `v` of the `n` rows in `m` starts at `starts[v]` and is not empty. */
  ghost predicate StartsOf(m: seq<Entry>, starts: seq<int>, n: nat) {
    |starts| == n + 1 && starts[0] == 0 && starts[n] == |m| && forall v | 0 <= v < n :: RowSpan(m, v, starts[v], starts[v + 1])
  }

  ghost predicate RowSpan(m: seq<Entry>, v: int, lo: int, hi: int) {
    0 <= lo < hi <= |m| && forall i | lo <= i < hi :: m[i].row == v
  }

  ghost function RowStarts(rows: seq<seq<Entry>>): (starts: seq<int>)
    ensures |starts| == |rows| + 1 && forall v | 0 <= v <= |rows| :: starts[v] == |Joined(rows, v)|
  {
    seq(|rows| + 1, v requires 0 <= v <= |rows| => |Joined(rows, v)|)
  }

  lemma RowsStart(rows: seq<seq<Entry>>)
    requires InOrder(rows)
    ensures StartsOf(Joined(rows, |rows|), RowStarts(rows), |rows|)
  {
    forall v | 0 <= v < |rows|
      ensures RowSpan(Joined(rows, |rows|), v, RowStarts(rows)[v], RowStarts(rows)[v + 1])
    {
      RowSpans(rows, v);
    }
  }

  lemma RowSpans(rows: seq<seq<Entry>>, v: nat)
    requires InOrder(rows) && v < |rows|
    ensures RowSpan(Joined(rows, |rows|), v, |Joined(rows, v)|, |Joined(rows, v + 1)|)
  {
    RowSlice(rows, v, |rows|);
    SpanOf(Joined(rows, |rows|), |Joined(rows, v)|, |Joined(rows, v + 1)|, rows[v], v);
  }

  lemma SpanOf(m: seq<Entry>, lo: nat, hi: nat, row: seq<Entry>, v: int)
    requires lo < hi <= |m| && m[lo..hi] == row && forall e | e in row :: e.row == v
    ensures RowSpan(m, v, lo, hi)
  {
    assert forall i | lo <= i < hi :: m[i] == row[i - lo] && row[i - lo] in row;
  }

  /** `xa` holds where each row starts, `asub` the columns and `a` the values of its entries. */
  method Compress(midx: array<Entry>, n: nat, ghost starts: seq<int>) returns (a: array<real>, asub: array<int>, xa: array<int>)
    requires n >= 1 && StartsOf(midx[..], starts, n)
    ensures a.Length == asub.Length == midx.Length && xa[..] == starts
    ensures forall i | 0 <= i < midx.Length :: a[i] == midx[i].val && asub[i] == midx[i].col
  {
    var count := midx.Length;
    a, asub, xa := new real[count], new int[count], new int[n + 1];
    var row := -1;
    var i := 0;
    while i < count
      invariant 0 <= i <= count && -1 <= row < n && (row == -1 <==> i == 0)
      invariant row >= 0 ==> starts[row] < i <= starts[row + 1]
      invariant forall v | 0 <= v <= row :: xa[v] == starts[v]
      invariant forall k | 0 <= k < i :: a[k] == midx[k].val && asub[k] == midx[k].col
    {
      assert midx[i] == midx[..][i];
      assert row >= 0 ==> RowSpan(midx[..], row, starts[row], starts[row + 1]);
      assert row + 1 < n ==> RowSpan(midx[..], row + 1, starts[row + 1], starts[row + 2]);
      if midx[i].row > row {
        row := midx[i].row;
        xa[row] := i;
      }
      a[i] := midx[i].val;
      asub[i] := midx[i].col;
      i := i + 1;
    }
    assert RowSpan(midx[..], n - 1, starts[n - 1], starts[n]);
    xa[row + 1] := count;
  }

  /** The conductance matrix in three arrays. */
  method CompressMatrix(g: Grid) returns (a: array<real>, asub: array<int>, xa: array<int>)
    requires g.Valid()
    ensures xa[..] == RowStarts(g.Rows()) && a.Length == asub.Length == |g.Matrix()|
    ensures forall i | 0 <= i < |g.Matrix()| :: a[i] == g.Matrix()[i].val && asub[i] == g.Matrix()[i].col
  {
    var midx := CalculateMidx(g);
    RowsInOrder(g);
    RowsStart(g.Rows());
    a, asub, xa := Compress(midx, g.dimX * g.dimZ * (g.numLayer + 1), RowStarts(g.Rows()));
  }

  /** Column `c` of the compressed form holds value `val` at row `r`. */
  ghost predicate ColumnHolds(m: seq<Entry>, lo: int, hi: int, r: int, val: real) {
    exists k | lo <= k < hi && 0 <= k < |m| :: m[k].col == r && m[k].val == val
  }

  lemma RowHolds(m: seq<Entry>, lo: nat, hi: nat, row: seq<Entry>, v: int, r: int, val: real)
    requires lo <= hi <= |m| && m[lo..hi] == row && forall e | e in row :: e.row == v
    ensures ColumnHolds(m, lo, hi, r, val) <==> Entry(v, r, val) in row
  {
    if Entry(v, r, val) in row {
      var k :| 0 <= k < |row| && row[k] == Entry(v, r, val);
      assert m[lo + k] == row[k];
    }
    if ColumnHolds(m, lo, hi, r, val) {
      var k :| lo <= k < hi && m[k].col == r && m[k].val == val;
      assert m[k] == row[k - lo] && row[k - lo] in row;
    }
  }

  /**
    The three arrays, built by rows, are a compressed-column form of the same matrix: between the starts of
    column `c` stand exactly its entries.
   */
  lemma CompressedByColumns(g: Grid, r: int, c: nat, val: real)
    requires g.Valid() && c < g.Nodes()
    ensures ColumnHolds(g.Matrix(), |Joined(g.Rows(), c)|, |Joined(g.Rows(), c + 1)|, r, val) <==> Entry(r, c, val) in g.Matrix()
  {
    RowSlice(g.Rows(), c, g.Nodes());
    RowsOfRow(g, c);
    RowHolds(g.Matrix(), |Joined(g.Rows(), c)|, |Joined(g.Rows(), c + 1)|, g.RowAt(c), c, r, val);
    InMatrixExactly(g, Entry(c, r, val));
    if Entry(r, c, val) in g.Matrix() {
      MatrixIsSymmetric(g, Entry(r, c, val));
    }
    if Entry(c, r, val) in g.Matrix() {
      MatrixIsSymmetric(g, Entry(c, r, val));
    }
  }
}
