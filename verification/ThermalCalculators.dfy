/** The thermal state over power epochs as an object (src/thermal.cc, src/thermal_solver.c). */
module ThermalCalculators {
  import opened Arithmetic
  import opened ThermalGrid
  import opened ThermalAssembly
  import opened ThermalSolver
  import opened ThermalBounds
  import opened ThermalSafety

  // ----- heat

  /** Whether the power of node `v`'s cell has been entered when the loops stand at cell (i, j) of die `l`. */
  predicate Entered(g: Grid, v: nat, l: int, j: int, i: int)
    requires g.Plane() > 0 && g.dimZ > 0
  {
    var layer, r := v / g.Plane(), v % g.Plane();
    layer % 3 == 1 && (layer / 3 < l || (layer / 3 == l && (r % g.dimZ < j || (r % g.dimZ == j && r / g.dimZ < i))))
  }

  /** The cell whose power goes to a node, read off the node's number. */
  lemma CellOf(g: Grid, l: nat, j: nat, i: nat)
    requires g.Valid() && j < g.dimZ && i < g.dimX
    ensures var v := HeatedNode(g, i, j, l);
            g.Plane() > 0 && v >= g.Plane() && v / g.Plane() == 3 * l + 1 && v % g.Plane() / g.dimZ == i && v % g.Plane() % g.dimZ == j
  {
    var r := CellNumber(i, j, g.dimX, g.dimZ);
    LayerNumber(g.Plane(), 3 * l + 1, r);
  }

  lemma CellNumber(i: nat, j: nat, x: nat, z: nat) returns (r: nat)
    requires i < x && j < z
    ensures r == i * z + j < x * z && r / z == i && r % z == j
  {
    MultiplesApart(i, z);
    MultiplesApart(x - i, z);
    Distributes(z, x, -(i as int));
    r := i * z + j;
    QuotientUnique(r, z, i, j);
  }

  lemma LayerNumber(plane: nat, n: nat, r: nat)
    requires r < plane && n >= 1
    ensures plane * n + r >= plane && (plane * n + r) / plane == n && (plane * n + r) % plane == r
  {
    MultiplesApart(n, plane);
    QuotientUnique(plane * n + r, plane, n, r);
  }

  /** No other node has that cell. */
  lemma CellIsUnique(g: Grid, l: nat, j: nat, i: nat, v: nat)
    requires g.Valid() && g.Plane() > 0 && j < g.dimZ && i < g.dimX
    requires v / g.Plane() == 3 * l + 1 && v % g.Plane() / g.dimZ == i && v % g.Plane() % g.dimZ == j
    ensures v == HeatedNode(g, i, j, l)
  {
    var r := v % g.Plane();
    assert v == g.Plane() * (v / g.Plane()) + r && r == g.dimZ * (r / g.dimZ) + r % g.dimZ;
  }

  /** The power of a cell enters one node of its die, and the ambient's heat every node of the heat sink. */
  lemma HeatEnters(g: Grid, tamb: real, power: (int, int, int) -> real, l: nat, j: nat, i: nat)
    requires g.Valid() && j < g.dimZ && i < g.dimX
    ensures var v := g.dimX * g.dimZ * (3 * l + 1) + (i * g.dimZ + j); v >= 0 && HeatAt(g, tamb, power, v) == power(i, j, l)
    ensures var v := j * g.dimX + i; 0 <= v < g.dimX * g.dimZ && HeatAt(g, tamb, power, v) == tamb / g.ramb
  {
    CellOf(g, l, j, i);
    DieOf(l);
    InPlane(g.dimX, g.dimZ, j, i);
  }

  /** Any other heat is some cell's power. */
  lemma HeatHasACell(g: Grid, tamb: real, power: (int, int, int) -> real, v: nat) returns (l: nat, j: nat, i: nat)
    requires g.Valid() && v >= g.dimX * g.dimZ && HeatAt(g, tamb, power, v) != 0.0
    ensures j < g.dimZ && i < g.dimX && v == g.dimX * g.dimZ * (3 * l + 1) + (i * g.dimZ + j)
  {
    MultiplesApart(g.dimX, g.dimZ);
    l, j, i := CellAt(g, v);
  }

  lemma DieOf(l: nat)
    ensures (3 * l + 1) / 3 == l && (3 * l + 1) % 3 == 1
  {
  }

  /** The cell of a node in an active layer. */
  lemma CellAt(g: Grid, v: nat) returns (l: nat, j: nat, i: nat)
    requires g.Valid() && g.Plane() > 0 && v / g.Plane() % 3 == 1
    ensures j < g.dimZ && i < g.dimX && v == g.Plane() * (3 * l + 1) + (i * g.dimZ + j)
  {
    var r := v % g.Plane();
    l, j, i := v / g.Plane() / 3, r % g.dimZ, r / g.dimZ;
    CellBound(r, g.dimX, g.dimZ);
    assert v / g.Plane() == 3 * l + 1;
    CellIsUnique(g, l, j, i, v);
  }

  lemma CellInRange(g: Grid, numP: nat, l: nat, j: nat, i: nat)
    requires g.Valid() && g.numLayer == 3 * numP && l < numP && j < g.dimZ && i < g.dimX
    ensures 0 <= HeatedNode(g, i, j, l) < g.Nodes()
  {
    CellOf(g, l, j, i);
    var v := HeatedNode(g, i, j, l);
    assert v == g.Plane() * (3 * l + 1) + v % g.Plane();
    MultiplesApart(g.numLayer - 3 * l - 1, g.Plane());
    Distributes(g.Plane(), g.numLayer + 1, -(3 * l + 1) - 1);
    Distributes(g.Plane(), 3 * l + 1, 1);
  }

  ghost predicate HeatUpTo(g: Grid, heat: seq<real>, tamb: real, power: (int, int, int) -> real, l: int, j: int, i: int)
    requires g.Valid() && g.Plane() > 0
  {
    |heat| == g.Nodes() &&
    forall v: nat | v < |heat| :: heat[v] == if v < g.Plane() || Entered(g, v, l, j, i) then HeatAt(g, tamb, power, v) else 0.0
  }

  /** Entering one cell's power. */
  lemma HeatStep(g: Grid, heat: seq<real>, tamb: real, power: (int, int, int) -> real, l: nat, j: nat, i: nat)
    requires g.Valid() && g.Plane() > 0 && HeatUpTo(g, heat, tamb, power, l, j, i) && j < g.dimZ && i < g.dimX
    requires 0 <= HeatedNode(g, i, j, l) < g.Nodes()
    ensures HeatUpTo(g, heat[HeatedNode(g, i, j, l) := power(i, j, l)], tamb, power, l, j, i + 1)
  {
    var at := HeatedNode(g, i, j, l);
    CellOf(g, l, j, i);
    forall v: nat | v < |heat|
      ensures heat[at := power(i, j, l)][v] == if v < g.Plane() || Entered(g, v, l, j, i + 1) then HeatAt(g, tamb, power, v) else 0.0
    {
      if v != at && Entered(g, v, l, j, i + 1) && !Entered(g, v, l, j, i) {
        CellIsUnique(g, l, j, i, v);
      }
    }
  }

  lemma LineEntered(g: Grid, v: nat, l: int, j: int)
    requires g.Valid() && g.Plane() > 0
    ensures Entered(g, v, l, j, g.dimX) == Entered(g, v, l, j + 1, 0)
    ensures Entered(g, v, l, g.dimZ, 0) == Entered(g, v, l + 1, 0, 0)
  {
    CellBound(v % g.Plane(), g.dimX, g.dimZ);
  }

  lemma CellBound(r: nat, x: nat, z: nat)
    requires z > 0 && r < x * z
    ensures r / z < x
  {
    var i := r / z;
    assert r == z * i + r % z;
    MultiplesApart(i - x, z);
    Distributes(z, i, -(x as int));
  }

  lemma HeatLine(g: Grid, heat: seq<real>, tamb: real, power: (int, int, int) -> real, l: int, j: int)
    requires g.Valid() && g.Plane() > 0
    ensures HeatUpTo(g, heat, tamb, power, l, j, g.dimX) <==> HeatUpTo(g, heat, tamb, power, l, j + 1, 0)
    ensures HeatUpTo(g, heat, tamb, power, l, g.dimZ, 0) <==> HeatUpTo(g, heat, tamb, power, l + 1, 0, 0)
  {
    forall v: nat
      ensures Entered(g, v, l, j, g.dimX) == Entered(g, v, l, j + 1, 0) && Entered(g, v, l, g.dimZ, 0) == Entered(g, v, l + 1, 0, 0)
    {
      LineEntered(g, v, l, j);
    }
  }

  /** The ambient's heat on the heat sink, zero everywhere else. */
  method HeatSink(g: Grid, tamb: real) returns (heat: array<real>)
    requires g.Valid()
    ensures fresh(heat) && heat.Length == g.Nodes() && forall v | 0 <= v < heat.Length :: heat[v] == if v < g.Plane() then tamb / g.ramb else 0.0
  {
    heat := new real[g.Plane() * (g.numLayer + 1)](_ => 0.0);
    assert g.Plane() <= heat.Length;
    var i := 0;
    while i < g.dimX * g.dimZ
      invariant 0 <= i <= g.Plane() && forall v | 0 <= v < heat.Length :: heat[v] == if v < i then tamb / g.ramb else 0.0
    {
      heat[i] := tamb / g.ramb;
      i := i + 1;
    }
  }

  /** The heat entering each node in an epoch. */
  method EnterHeat(g: Grid, numP: nat, tamb: real, power: (int, int, int) -> real) returns (heat: array<real>)
    requires g.Valid() && g.numLayer == 3 * numP
    ensures fresh(heat) && heat.Length == g.Nodes() && forall v: nat | v < heat.Length :: heat[v] == HeatAt(g, tamb, power, v)
  {
    heat := HeatSink(g, tamb);
    MultiplesApart(g.dimX, g.dimZ);
    var l := 0;
    NothingEntered(g);
    while l < numP
      invariant 0 <= l <= numP && heat.Length == g.Nodes() && HeatUpTo(g, heat[..], tamb, power, l, 0, 0)
    {
      EnterDie(g, numP, heat, tamb, power, l);
      l := l + 1;
    }
    AllEntered(g, numP);
  }

  lemma NothingEntered(g: Grid)
    requires g.Valid() && g.Plane() > 0
    ensures forall v: nat :: !Entered(g, v, 0, 0, 0)
  {
  }

  lemma AllEntered(g: Grid, numP: nat)
    requires g.Valid() && g.Plane() > 0 && g.numLayer == 3 * numP
    ensures forall v: nat | v < g.Nodes() :: v / g.Plane() % 3 == 1 ==> Entered(g, v, numP, 0, 0)
  {
    forall v: nat | v < g.Nodes()
      ensures v / g.Plane() % 3 == 1 ==> Entered(g, v, numP, 0, 0)
    {
      LayerOf(g, v);
    }
  }

  method EnterDie(g: Grid, numP: nat, heat: array<real>, tamb: real, power: (int, int, int) -> real, l: int)
    requires g.Valid() && g.Plane() > 0 && g.numLayer == 3 * numP && 0 <= l < numP && heat.Length == g.Nodes()
    requires HeatUpTo(g, heat[..], tamb, power, l, 0, 0)
    modifies heat
    ensures HeatUpTo(g, heat[..], tamb, power, l + 1, 0, 0)
  {
    var j := 0;
    while j < g.dimZ
      invariant 0 <= j <= g.dimZ && HeatUpTo(g, heat[..], tamb, power, l, j, 0)
    {
      EnterLine(g, numP, heat, tamb, power, l, j);
      j := j + 1;
    }
    HeatLine(g, heat[..], tamb, power, l, 0);
  }

  method EnterLine(g: Grid, numP: nat, heat: array<real>, tamb: real, power: (int, int, int) -> real, l: int, j: int)
    requires g.Valid() && g.Plane() > 0 && g.numLayer == 3 * numP && 0 <= l < numP && 0 <= j < g.dimZ && heat.Length == g.Nodes()
    requires HeatUpTo(g, heat[..], tamb, power, l, j, 0)
    modifies heat
    ensures HeatUpTo(g, heat[..], tamb, power, l, j + 1, 0)
  {
    var i := 0;
    while i < g.dimX
      invariant 0 <= i <= g.dimX && HeatUpTo(g, heat[..], tamb, power, l, j, i)
    {
      CellInRange(g, numP, l, j, i);
      HeatStep(g, heat[..], tamb, power, l, j, i);
      var at := g.dimX * g.dimZ * (l * 3 + 1) + i * g.dimZ + j;
      assert at == HeatedNode(g, i, j, l);
      ghost var was := heat[..];
      heat[at] := power(i, j, l);
      assert heat[..] == was[at := power(i, j, l)];
      i := i + 1;
    }
    HeatLine(g, heat[..], tamb, power, l, j);
  }

  /** Power that is nowhere negative leaves every node at least the ambient's heat; no power, exactly that. */
  lemma HeatIs(g: Grid, heat: seq<real>, tamb: real, power: (int, int, int) -> real)
    requires g.Valid() && forall v: nat | v < |heat| :: heat[v] == HeatAt(g, tamb, power, v)
    ensures (forall i, j, l :: power(i, j, l) >= 0.0) ==> Heated(g, heat, tamb)
    ensures (forall i, j, l :: power(i, j, l) == 0.0) ==> Unpowered(g, heat, tamb)
  {
    forall v: nat | v < |heat|
      ensures v < g.Plane() ==> heat[v] == Times(g.Ambient(v), tamb)
      ensures v >= g.Plane() ==> Times(g.Ambient(v), tamb) == 0.0
    {
      AmbientHeat(tamb, g.ramb);
    }
    MultiplesApart(g.dimX, g.dimZ);
  }

  lemma AmbientHeat(tamb: real, ramb: real)
    requires ramb > 0.0
    ensures tamb / ramb == Times(1.0 / ramb, tamb)
  {
  }

  // ----- epochs

  /** The matrix, and the iterations to make of it in an epoch. */
  method Prepare(g: Grid, cap: seq<real>, epochTime: real) returns (midx: array<Entry>, timeIter: nat)
    requires g.Valid() && |cap| == g.numLayer + 1 && (forall c | c in cap :: c > 0.0) && epochTime > 0.0
    ensures midx[..] == g.Matrix() && timeIter >= 10 && Admits(g, cap, epochTime / (timeIter as real))
  {
    MatrixFits(g, cap);
    midx := CalculateMidx(g);
    timeIter := CalculateTimeStep(midx, cap, g.dimX * g.dimZ, epochTime);
    StepNotNegative(epochTime, timeIter);
  }

  class ThermalCalculator {
    const g: Grid
    const numP: nat
    const cap: seq<real>
    const tamb: real
    const epochTime: real
    var midx: array<Entry>
    var timeIter: nat
    var tTrans: array<real>

    /** What the physical parameters must be. */
    ghost predicate Physical() {
      g.Valid() && g.numLayer == 3 * numP && |cap| == g.numLayer + 1 && (forall c | c in cap :: c > 0.0) && epochTime > 0.0
    }

    /** The matrix, a stable number of iterations per epoch, and no temperature below the ambient's. */
    ghost predicate Valid()
      reads this, midx, tTrans
    {
      Physical() && midx[..] == g.Matrix() && timeIter >= 10 && Admits(g, cap, epochTime / (timeIter as real)) && tTrans.Length == g.Nodes() && AtLeast(tTrans[..], tamb)
    }

    constructor (g: Grid, numP: nat, cap: seq<real>, tamb: real, epochTime: real)
      requires g.Valid() && g.numLayer == 3 * numP && |cap| == g.numLayer + 1 && (forall c | c in cap :: c > 0.0) && epochTime > 0.0
      ensures Valid() && this.g == g && this.tamb == tamb && forall v | 0 <= v < tTrans.Length :: tTrans[v] == tamb
    {
      var m, n := Prepare(g, cap, epochTime);
      this.g, this.numP, this.cap, this.tamb, this.epochTime := g, numP, cap, tamb, epochTime;
      midx, timeIter := m, n;
      tTrans := new real[g.Plane() * (g.numLayer + 1)](_ => tamb);
    }

    /**
      One epoch: from the temperatures it left, the solver makes `timeIter` iterations with the epoch's power.
      Power that is nowhere negative never lets a temperature fall below the ambient's; without power none
      rises above the highest of the old ones either.
     */
    method CalcTransT(power: (int, int, int) -> real, ghost highest: real) returns (ghost s: Setting)
      requires Valid() && (forall i, j, l :: power(i, j, l) >= 0.0) && highest >= tamb
      modifies this, tTrans
      ensures Valid() && midx == old(midx) && timeIter == old(timeIter)
      ensures MadeOf(s, epochTime / (timeIter as real), cap, g.Plane(), s.heat) && |s.heat| == g.Nodes()
      ensures forall v: nat | v < |s.heat| :: s.heat[v] == HeatAt(g, tamb, power, v)
      ensures Within(g.Matrix(), g.Nodes()) && tTrans[..] == Iterated(g.Matrix(), old(tTrans[..]), s, timeIter)
      ensures old(AtMost(tTrans[..], highest)) && (forall i, j, l :: power(i, j, l) == 0.0) ==> AtMost(tTrans[..], highest)
    {
      ghost var was := tTrans[..];
      var heat := EnterHeat(g, numP, tamb, power);
      var dt := epochTime / (timeIter as real);
      s := EpochSetting(g, cap, dt, heat[..]);
      EpochStays(g, cap, dt, timeIter, s, heat[..], tamb, was, power, highest);
      tTrans := Iterate(midx, tTrans, timeIter, s, dt, cap, g.dimX * g.dimZ, heat);
    }
  }

  /** A time step the matrix admits. */
  ghost predicate Admits(g: Grid, cap: seq<real>, dt: real)
    requires g.Valid()
  {
    g.Plane() > 0 && (forall e | e in g.Matrix() :: 0 <= e.row && e.row / g.Plane() < |cap| && (e.row == e.col ==> e.val > 0.0)) &&
    0.0 <= dt < StepBound(g.Matrix(), cap, g.Plane())
  }

  lemma StepNotNegative(total: real, n: nat)
    requires total > 0.0 && n > 0
    ensures total / (n as real) >= 0.0
  {
  }

  lemma EpochSetting(g: Grid, cap: seq<real>, dt: real, heat: seq<real>) returns (s: Setting)
    requires g.Valid() && |cap| == g.numLayer + 1 && (forall c | c in cap :: c > 0.0) && |heat| == g.Nodes()
    ensures MadeOf(s, dt, cap, g.Plane(), heat)
  {
    MultiplesApart(g.dimX, g.dimZ);
    forall v: nat | v < g.Nodes()
      ensures 0 <= v / g.Plane() < |cap| && cap[v / g.Plane()] > 0.0
    {
      LayerOf(g, v);
      assert cap[v / g.Plane()] in cap;
    }
    s := Setting(seq(|heat|, v requires 0 <= v < |heat| => dt / cap[v / g.Plane()]), heat);
  }

  lemma EpochIsStable(g: Grid, cap: seq<real>, dt: real, s: Setting, heat: seq<real>)
    requires g.Valid() && |cap| == g.numLayer + 1 && Admits(g, cap, dt)
    requires |heat| == g.Nodes() && MadeOf(s, dt, cap, g.Plane(), heat)
    ensures Stable(g, s)
  {
    BoundedStepIsStable(g, s, dt, cap, heat);
  }

  /** An epoch's iterations keep to the bounds. */
  lemma EpochStays(g: Grid, cap: seq<real>, dt: real, timeIter: nat, s: Setting, heat: seq<real>, tamb: real, was: seq<real>,
                   power: (int, int, int) -> real, highest: real)
    requires g.Valid() && |cap| == g.numLayer + 1 && Admits(g, cap, dt)
    requires |heat| == g.Nodes() == |was| && MadeOf(s, dt, cap, g.Plane(), heat)
    requires forall v: nat | v < |heat| :: heat[v] == HeatAt(g, tamb, power, v)
    requires (forall i, j, l :: power(i, j, l) >= 0.0) && AtLeast(was, tamb) && highest >= tamb
    ensures Within(g.Matrix(), g.Nodes()) && AtLeast(Iterated(g.Matrix(), was, s, timeIter), tamb)
    ensures AtMost(was, highest) && (forall i, j, l :: power(i, j, l) == 0.0) ==> AtMost(Iterated(g.Matrix(), was, s, timeIter), highest)
  {
    EpochIsStable(g, cap, dt, s, heat);
    HeatIs(g, heat, tamb, power);
    EpochBounds(g, s, tamb, was, highest, timeIter);
  }

  lemma EpochBounds(g: Grid, s: Setting, tamb: real, was: seq<real>, highest: real, n: nat)
    requires g.Valid() && Stable(g, s) && |was| == g.Nodes() && Heated(g, s.heat, tamb) && AtLeast(was, tamb) && highest >= tamb
    ensures Within(g.Matrix(), g.Nodes()) && AtLeast(Iterated(g.Matrix(), was, s, n), tamb)
    ensures AtMost(was, highest) && Unpowered(g, s.heat, tamb) ==> AtMost(Iterated(g.Matrix(), was, s, n), highest)
  {
    IterationsStay(g, was, s, tamb, tamb, n);
    if AtMost(was, highest) && Unpowered(g, s.heat, tamb) {
      IterationsStayBelow(g, was, s, tamb, highest, n);
    }
  }
}
