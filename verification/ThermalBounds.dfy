/** The discrete maximum principle of the thermal iteration (src/thermal.cc, src/thermal_solver.c). */
module ThermalBounds {
  import opened ThermalGrid
  import opened ThermalSolver

  // ----- one node's update

  lemma {:induction false} GatheredJoin(a: seq<Entry>, b: seq<Entry>, was: seq<real>, s: Setting, v: int)
    requires s.Valid() && |was| == |s.heat| && Within(a, |was|) && Within(b, |was|)
    ensures Within(a + b, |was|) && Gathered(a + b, was, s, v) == Gathered(a, was, s, v) + Gathered(b, was, s, v)
  {
    if b == [] {
      assert a + b == a;
    } else {
      assert b[|b| - 1] in b;
      GatheredJoin(a, b[..|b| - 1], was, s, v);
      assert (a + b)[..|a + b| - 1] == a + b[..|b| - 1];
    }
  }

  lemma {:induction false} GatheredElsewhere(m: seq<Entry>, was: seq<real>, s: Setting, v: int)
    requires s.Valid() && |was| == |s.heat| && Within(m, |was|) && forall e | e in m :: e.row != v
    ensures Gathered(m, was, s, v) == 0.0
  {
    if m != [] {
      assert m[|m| - 1] in m;
      GatheredElsewhere(m[..|m| - 1], was, s, v);
    }
  }

  ghost predicate OwnRows(rows: seq<seq<Entry>>, n: int) {
    forall v, e | 0 <= v < |rows| && e in rows[v] :: e.row == v && 0 <= e.row < n && 0 <= e.col < n
  }

  /** Only a node's own row contributes to its new temperature. */
  lemma {:induction false} GatheredFromRow(rows: seq<seq<Entry>>, n: nat, was: seq<real>, s: Setting, v: int)
    requires s.Valid() && |was| == |s.heat| && n <= |rows| && OwnRows(rows, |was|) && 0 <= v < |rows|
    ensures Within(Joined(rows, n), |was|) && Within(rows[v], |was|)
    ensures Gathered(Joined(rows, n), was, s, v) == if v < n then Gathered(rows[v], was, s, v) else 0.0
  {
    if n > 0 {
      GatheredFromRow(rows, n - 1, was, s, v);
      assert Within(rows[n - 1], |was|);
      GatheredJoin(Joined(rows, n - 1), rows[n - 1], was, s, v);
      if v != n - 1 {
        GatheredElsewhere(rows[n - 1], was, s, v);
      }
    }
  }

  /** A product as a function: facts about products then carry over from one lemma to another as they stand. */
  function Times(a: real, b: real): real {
    a * b
  }

  /** What a node keeps of its own temperature `t`, and the heat it takes in. */
  function OwnPart(diagonal: real, k: real, t: real, heat: real): real {
    (1.0 - diagonal * k) * t + heat * k
  }

  /** Neighbours not below `x` contribute at least minus their conductance each, times `kx`, the scale times `x`. */
  lemma {:induction false} NeighboursBound(m: seq<Entry>, was: seq<real>, s: Setting, v: int, x: real, kx: real)
    requires s.Valid() && |was| == |s.heat| && Within(m, |was|) && 0 <= v < |was| && s.scale[v] >= 0.0 && kx == Times(s.scale[v], x)
    requires forall e | e in m :: e.row == v && e.col != v && e.val < 0.0
    requires forall w | 0 <= w < |was| :: was[w] >= x
    ensures Gathered(m, was, s, v) >= Times(-Sum(m), kx)
  {
    if m != [] {
      var e := m[|m| - 1];
      assert e in m;
      NeighboursBound(m[..|m| - 1], was, s, v, x, kx);
      var q := NeighbourPart(e, was, s, x, kx);
      TwoParts(Gathered(m[..|m| - 1], was, s, v), Sum(m[..|m| - 1]), q, e.val, Sum(m), kx);
    }
  }

  lemma NeighbourPart(e: Entry, was: seq<real>, s: Setting, x: real, kx: real) returns (q: real)
    requires s.Valid() && |was| == |s.heat| && 0 <= e.row < |was| && 0 <= e.col < |was| && e.row != e.col
    requires s.scale[e.row] >= 0.0 && kx == Times(s.scale[e.row], x) && e.val < 0.0 && was[e.col] >= x
    ensures q == Contribution(e, was, s) && q >= Times(-e.val, kx)
  {
    q := Contribution(e, was, s);
    OneNeighbour(e.val, was[e.col], x, s.scale[e.row], kx);
  }

  lemma OneNeighbour(val: real, t: real, x: real, k: real, kx: real)
    requires val < 0.0 && k >= 0.0 && t >= x && kx == Times(k, x)
    ensures -(val * t * k) >= Times(-val, kx)
  {
    var w := -val * k;
    assert w >= 0.0;
    assert -(val * t * k) == t * w && -val * kx == x * w;
    ScaleUp(t, x, w);
  }

  lemma TwoParts(p: real, a: real, q: real, b: real, sum: real, y: real)
    requires p >= Times(-a, y) && q >= Times(-b, y) && sum == a + b
    ensures p + q >= Times(-sum, y)
  {
    assert -sum * y == -a * y + -b * y;
  }

  /**
    A node's new temperature is an average of old ones and the ambient's: the weights are the node's own, which
    the step keeps non-negative, minus each conductance and the ambient's, times the scale; they sum to one.
   */
  lemma UpdateStays(gathered: real, sum: real, diagonal: real, amb: real, k: real, t: real, heat: real, tamb: real, x: real)
    requires diagonal == -sum + amb && amb >= 0.0 && k >= 0.0 && diagonal * k <= 1.0
    requires gathered >= -sum * (k * x) && t >= x && heat >= amb * tamb && tamb >= x
    ensures gathered + ((1.0 - diagonal * k) * t + heat * k) >= x
    ensures (1.0 - diagonal * k) + -sum * k + amb * k == 1.0
  {
    var own, w := 1.0 - diagonal * k, amb * k;
    HeatScaled(heat, amb, tamb, k);
    assert own * x + -sum * (k * x) + w * x == x by {
      assert diagonal * k == -sum * k + amb * k;
      WholeWeight(own, -sum * k, w, x);
      assert -sum * k * x == -sum * (k * x);
    }
    ScaleUp(t, x, own);
    ScaleUp(tamb, x, w);
  }

  lemma WholeWeight(a: real, b: real, c: real, x: real)
    requires a + b + c == 1.0
    ensures a * x + b * x + c * x == x
  {
    assert a * x + b * x + c * x == (a + b + c) * x;
  }

  lemma HeatScaled(heat: real, amb: real, tamb: real, k: real)
    requires k >= 0.0 && amb >= 0.0 && heat >= amb * tamb
    ensures heat * k >= amb * k * tamb && amb * k >= 0.0
  {
    assert amb * tamb * k == amb * k * tamb;
    ScaleUp(heat, amb * tamb, k);
  }

  /** The heat entering each node is at least what the ambient passes on. */
  ghost predicate Heated(g: Grid, heat: seq<real>, tamb: real)
    requires g.Valid()
  {
    forall v | 0 <= v < |heat| :: heat[v] >= Times(g.Ambient(v), tamb)
  }

  ghost predicate AtLeast(ts: seq<real>, x: real) {
    forall v | 0 <= v < |ts| :: ts[v] >= x
  }

  /** The step keeps every node's own weight non-negative. */
  ghost predicate Stable(g: Grid, s: Setting)
    requires g.Valid()
  {
    s.Valid() && |s.heat| == g.Nodes() &&
    forall l: int, j: int, i: int | g.Has(l, j, i) :: StableAt(g, s, l, j, i)
  }

  ghost predicate StableAt(g: Grid, s: Setting, l: int, j: int, i: int)
    requires g.Valid() && s.Valid()
  {
    var v := g.Node(l, j, i);
    0 <= v < |s.heat| && s.scale[v] >= 0.0 && Times(g.Diagonal(l, j, i).val, s.scale[v]) <= 1.0
  }

  lemma RowWithin(g: Grid, l: int, j: int, i: int)
    requires g.Valid() && g.Has(l, j, i)
    ensures Within(g.Row(l, j, i), g.Nodes())
  {
    forall e | e in g.Row(l, j, i)
      ensures 0 <= e.row < g.Nodes() && 0 <= e.col < g.Nodes()
    {
      RowsMirror(g, l, j, i, e);
      NodeIs(g, l, j, i);
      LowerShape(g, l, j, i);
      UpperShape(g, l, j, i);
    }
  }

  /** A node stays at `x` or above when its neighbours, itself and the ambient are. */
  lemma NodeStays(g: Grid, was: seq<real>, s: Setting, l: int, j: int, i: int, tamb: real, x: real) returns (now: real)
    requires g.Valid() && g.Has(l, j, i) && s.Valid() && |was| == |s.heat| == g.Nodes() && StableAt(g, s, l, j, i)
    requires s.heat[g.Node(l, j, i)] >= Times(g.Ambient(g.Node(l, j, i)), tamb) && tamb >= x && AtLeast(was, x)
    ensures Within(g.Row(l, j, i), |was|) && now == Gathered(g.Row(l, j, i), was, s, g.Node(l, j, i)) && now >= x
  {
    var lower, d, upper := RowFacts(g, l, j, i);
    now := RowStays(lower, d, upper, was, s, d.row, g.Ambient(d.row), tamb, x);
  }

  /** A row as its two sides and its diagonal. */
  lemma RowFacts(g: Grid, l: int, j: int, i: int) returns (lower: seq<Entry>, d: Entry, upper: seq<Entry>)
    requires g.Valid() && g.Has(l, j, i)
    ensures g.Row(l, j, i) == lower + [d] + upper && d == g.Diagonal(l, j, i) && d.row == d.col == g.Node(l, j, i)
    ensures Within(lower, g.Nodes()) && Within(upper, g.Nodes()) && OffDiagonal(lower, d.row, true) && OffDiagonal(upper, d.row, false)
    ensures d.val == -Sum(lower + upper) + g.Ambient(d.row) && g.Ambient(d.row) >= 0.0
  {
    RowWithin(g, l, j, i);
    LowerShape(g, l, j, i);
    UpperShape(g, l, j, i);
    lower, d, upper := g.Lower(l, j, i), g.Diagonal(l, j, i), g.Upper(l, j, i);
    SidesWithin(lower, d, upper, g.Nodes());
  }

  lemma SidesWithin(lower: seq<Entry>, d: Entry, upper: seq<Entry>, n: int)
    requires Within(lower + [d] + upper, n)
    ensures Within(lower, n) && Within(upper, n)
  {
    forall e | e in lower || e in upper
      ensures 0 <= e.row < n && 0 <= e.col < n
    {
      assert e in lower + [d] + upper;
    }
  }

  lemma RowStays(lower: seq<Entry>, d: Entry, upper: seq<Entry>, was: seq<real>, s: Setting, v: int, amb: real, tamb: real, x: real)
    returns (now: real)
    requires s.Valid() && |was| == |s.heat| && Within(lower, |was|) && Within(upper, |was|) && d.row == v == d.col && 0 <= v < |was|
    requires OffDiagonal(lower, v, true) && OffDiagonal(upper, v, false) && d.val == -Sum(lower + upper) + amb
    requires amb >= 0.0 && s.scale[v] >= 0.0 && Times(d.val, s.scale[v]) <= 1.0
    requires s.heat[v] >= Times(amb, tamb) && tamb >= x && AtLeast(was, x)
    ensures Within(lower + [d] + upper, |was|) && now == Gathered(lower + [d] + upper, was, s, v) && now >= x
  {
    var kx := Times(s.scale[v], x);
    var gl, sl := NeighboursSum(lower, was, s, v, x, kx);
    var gu, su := NeighboursSum(upper, was, s, v, x, kx);
    DiagonalSum(lower, d, upper, amb, sl, su);
    WholeUpdate(gl, sl, gu, su, d.val, amb, s.scale[v], was[v], s.heat[v], tamb, x, kx);
    now := RowParts(lower, d, upper, was, s, v, gl, gu);
  }

  lemma NeighboursSum(m: seq<Entry>, was: seq<real>, s: Setting, v: int, x: real, kx: real) returns (gathered: real, sum: real)
    requires s.Valid() && |was| == |s.heat| && Within(m, |was|) && 0 <= v < |was| && s.scale[v] >= 0.0 && kx == Times(s.scale[v], x)
    requires (OffDiagonal(m, v, true) || OffDiagonal(m, v, false)) && AtLeast(was, x)
    ensures gathered == Gathered(m, was, s, v) && sum == Sum(m) && gathered >= Times(-sum, kx)
  {
    NeighboursBound(m, was, s, v, x, kx);
    gathered, sum := Gathered(m, was, s, v), Sum(m);
  }

  lemma DiagonalSum(lower: seq<Entry>, d: Entry, upper: seq<Entry>, amb: real, sl: real, su: real)
    requires d.val == -Sum(lower + upper) + amb && sl == Sum(lower) && su == Sum(upper)
    ensures d.val == -(sl + su) + amb
  {
    SumJoin(lower, upper);
  }

  lemma WholeUpdate(gl: real, sl: real, gu: real, su: real, diagonal: real, amb: real, k: real, t: real, heat: real, tamb: real, x: real,
                    kx: real)
    requires diagonal == -(sl + su) + amb && amb >= 0.0 && k >= 0.0 && Times(diagonal, k) <= 1.0 && kx == Times(k, x)
    requires gl >= Times(-sl, kx) && gu >= Times(-su, kx) && t >= x && heat >= Times(amb, tamb) && tamb >= x
    ensures gl + OwnPart(diagonal, k, t, heat) + gu >= x
  {
    TwoParts(gl, sl, gu, su, sl + su, kx);
    UpdateStays(gl + gu, sl + su, diagonal, amb, k, t, heat, tamb, x);
  }

  lemma GatheredOne(d: Entry, was: seq<real>, s: Setting)
    requires s.Valid() && |was| == |s.heat| && d.row == d.col && 0 <= d.row < |was|
    ensures Within([d], |was|) && Gathered([d], was, s, d.row) == OwnPart(d.val, s.scale[d.row], was[d.row], s.heat[d.row])
  {
    assert [d][..0] == [];
    assert Gathered([d], was, s, d.row) == Contribution(d, was, s);
  }

  lemma RowParts(lower: seq<Entry>, d: Entry, upper: seq<Entry>, was: seq<real>, s: Setting, v: int, gl: real, gu: real) returns (now: real)
    requires s.Valid() && |was| == |s.heat| && Within(lower, |was|) && Within(upper, |was|) && d.row == v == d.col && 0 <= v < |was|
    requires gl == Gathered(lower, was, s, v) && gu == Gathered(upper, was, s, v)
    ensures Within(lower + [d] + upper, |was|) && now == Gathered(lower + [d] + upper, was, s, v)
    ensures now == gl + OwnPart(d.val, s.scale[v], was[v], s.heat[v]) + gu
  {
    GatheredOne(d, was, s);
    GatheredJoin(lower, [d], was, s, v);
    GatheredJoin(lower + [d], upper, was, s, v);
    now := Gathered(lower + [d] + upper, was, s, v);
  }
}
