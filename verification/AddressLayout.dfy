/** Laying out the fields of an address, and what the layout guarantees (src/configuration.cc, src/common.cc). */
module AddressLayout {
  import opened Common
  import opened Arithmetic
  import opened Configuration
  import ChannelInv

  // ----- bit arithmetic

  lemma {:induction false} ShiftedIs(a: nat, n: nat)
    ensures Shifted(a, n) == a / Pow2(n)
  {
    if n > 0 {
      ShiftedIs(a / 2, n - 1);
      DivideTwice(a, 2, Pow2(n - 1));
    }
  }

  lemma DivideTwice(a: nat, m: nat, n: nat)
    requires m > 0 && n > 0
    ensures m * n > 0 && a / m / n == a / (m * n)
  {
    var whole, t := DividesInto(a, m);
    var q, r := DividesInto(whole, n);
    var s := Remainders(m, n, whole, q, r, t);
    QuotientUnique(a, m * n, q, s);
  }

  lemma Remainders(m: nat, n: nat, whole: nat, q: nat, r: nat, t: nat) returns (s: nat)
    requires whole == n * q + r && r < n && t < m
    ensures m * n > 0 && s < m * n && m * whole + t == (m * n) * q + s
  {
    s := m * r + t;
    Distributes(m, n * q, r);
    Associates(m, n, q);
    MultiplesApart(n - r, m);
    Distributes(m, n - r, r);
  }

  lemma {:induction false} LowBitsAre(a: nat, w: nat)
    ensures LowBits(a, w) == a % Pow2(w)
  {
    if w > 0 {
      LowBitsAre(a / 2, w - 1);
      ModuloDoubles(a, Pow2(w - 1));
    }
  }

  lemma ModuloDoubles(a: nat, p: nat)
    requires p > 0
    ensures a % (2 * p) == 2 * (a / 2 % p) + a % 2
  {
    var q, r := a / 2 / p, a / 2 % p;
    assert a / 2 == p * q + r;
    Associates(2, p, q);
    QuotientUnique(a, 2 * p, q, 2 * r + a % 2);
  }

  /** ... and is put together from them in one way only. */
  lemma JoinAt(low: nat, high: nat, w: nat)
    requires low < Pow2(w)
    ensures Pow2(w) * high >= 0 && LowBits(low + Pow2(w) * high, w) == low && Shifted(low + Pow2(w) * high, w) == high
  {
    assert Pow2(w) * high >= 0;
    ShiftedIs(low + Pow2(w) * high, w);
    LowBitsAre(low + Pow2(w) * high, w);
    QuotientUnique(low + Pow2(w) * high, Pow2(w), high, low);
  }

  lemma {:induction false} ShiftedTwice(a: nat, m: nat, n: nat)
    ensures Shifted(Shifted(a, m), n) == Shifted(a, m + n)
  {
    if m > 0 {
      ShiftedTwice(a / 2, m - 1, n);
    }
  }

  lemma {:induction false} Pow2Grows(m: nat, n: nat)
    requires m <= n
    ensures Pow2(m) <= Pow2(n)
  {
    if m < n {
      Pow2Grows(m, n - 1);
    }
  }

  // ----- layouts

  /** Where the field at position `i` starts when the fields of `order` are packed from the low end. */
  function Start(width: SixFields, order: seq<Field>, i: nat): nat
    requires i <= |order|
  {
    if i == 0 then 0 else Start(width, order, i - 1) + width.Get(order[i - 1])
  }

  /** All six fields, each once. */
  ghost predicate Complete(order: seq<Field>) {
    |order| == 6 && (forall f: Field :: f in order) && forall i, j | 0 <= i < j < 6 :: order[i] != order[j]
  }

  ghost predicate Packed(m: AddressMap, order: seq<Field>) {
    Complete(order) && forall i | 0 <= i < 6 :: m.pos.Get(order[i]) == Start(m.width, order, i)
  }

  /** The width of all fields together. */
  function Width(m: AddressMap, order: seq<Field>): nat {
    Start(m.width, order, |order|)
  }

  /** The shifted address made of the given field values, from position `i` of the order on. */
  function Assembled(m: AddressMap, order: seq<Field>, v: SixFields, i: nat): nat
    requires i <= |order|
    decreases |order| - i
  {
    if i == |order| then 0 else v.Get(order[i]) + Pow2(m.width.Get(order[i])) * Assembled(m, order, v, i + 1)
  }

  function Sliced(m: AddressMap, a: nat): SixFields {
    SixFields(Slice(m, a, Ch), Slice(m, a, Ra), Slice(m, a, Bg), Slice(m, a, Ba), Slice(m, a, Ro), Slice(m, a, Co))
  }

  ghost predicate InRange(m: AddressMap, v: SixFields) {
    forall f :: v.Get(f) < Pow2(m.width.Get(f))
  }

  lemma {:induction false} StartGrows(width: SixFields, order: seq<Field>, i: nat, j: nat)
    requires i <= j <= |order|
    ensures Start(width, order, i) <= Start(width, order, j)
  {
    if i < j {
      StartGrows(width, order, i, j - 1);
    }
  }

  // ----- the two directions of the bijection

  /** Slicing at position `j` what was assembled from position `i` on. */
  lemma {:induction false} AssembledAt(m: AddressMap, order: seq<Field>, v: SixFields, i: nat, j: nat)
    requires InRange(m, v) && i <= j < |order|
    ensures Start(m.width, order, i) <= Start(m.width, order, j)
    ensures LowBits(Shifted(Assembled(m, order, v, i), Start(m.width, order, j) - Start(m.width, order, i)), m.width.Get(order[j])) == v.Get(order[j])
    decreases j - i
  {
    hide LowBits, Shifted, Pow2;
    var w, rest := m.width.Get(order[i]), Assembled(m, order, v, i + 1);
    StartGrows(m.width, order, i, j);
    if i < j {
      AssembledAt(m, order, v, i + 1, j);
      var d := Start(m.width, order, j) - Start(m.width, order, i + 1);
      AboveTheLowest(v.Get(order[i]), rest, w, d, m.width.Get(order[j]), Assembled(m, order, v, i));
    } else {
      NoBits(Assembled(m, order, v, i));
      JoinAt(v.Get(order[i]), rest, w);
    }
  }

  /** What lies above the lowest field is not disturbed by it. */
  lemma AboveTheLowest(low: nat, rest: nat, w: nat, d: nat, width: nat, whole: nat)
    requires low < Pow2(w) && whole == low + Pow2(w) * rest
    ensures LowBits(Shifted(whole, w + d), width) == LowBits(Shifted(rest, d), width)
  {
    JoinAt(low, rest, w);
    ShiftedTwice(whole, w, d);
  }

  /** Any values in range, assembled, are sliced back out. */
  lemma SlicedAfterAssembled(m: AddressMap, order: seq<Field>, v: SixFields)
    requires Packed(m, order) && InRange(m, v)
    ensures Sliced(m, Assembled(m, order, v, 0)) == v
  {
    forall f: Field
      ensures Slice(m, Assembled(m, order, v, 0), f) == v.Get(f)
    {
      var i :| 0 <= i < 6 && order[i] == f;
      AssembledAt(m, order, v, 0, i);
    }
    var a := Assembled(m, order, v, 0);
    assert Slice(m, a, Ch) == v.Get(Ch) && Slice(m, a, Ra) == v.Get(Ra) && Slice(m, a, Bg) == v.Get(Bg);
    assert Slice(m, a, Ba) == v.Get(Ba) && Slice(m, a, Ro) == v.Get(Ro) && Slice(m, a, Co) == v.Get(Co);
  }

  lemma {:induction false} AssembledBelow(m: AddressMap, order: seq<Field>, v: SixFields, i: nat)
    requires InRange(m, v) && i <= |order|
    ensures Start(m.width, order, i) <= Width(m, order)
    ensures Assembled(m, order, v, i) < Pow2(Width(m, order) - Start(m.width, order, i))
    decreases |order| - i
  {
    StartGrows(m.width, order, i, |order|);
    if i < |order| {
      var w, rest := m.width.Get(order[i]), Assembled(m, order, v, i + 1);
      AssembledBelow(m, order, v, i + 1);
      var n := Width(m, order) - Start(m.width, order, i + 1);
      Pow2Sum(w, n);
      JoinedBelow(v.Get(order[i]), rest, Pow2(w), Pow2(n));
    }
  }

  lemma JoinedBelow(low: nat, high: nat, m: nat, n: nat)
    requires low < m && high < n
    ensures low + m * high < m * n
  {
    assert m * (high + 1) <= m * n;
  }

  lemma {:induction false} Pow2Sum(m: nat, n: nat)
    ensures Pow2(m + n) == Pow2(m) * Pow2(n)
  {
    if m > 0 {
      Pow2Sum(m - 1, n);
      assert 2 * (Pow2(m - 1) * Pow2(n)) == (2 * Pow2(m - 1)) * Pow2(n);
    }
  }

  /** The fields of `a`, assembled from position `i` on, give the bits of `a` from there up to the total width. */
  lemma {:induction false} AssembledFromSlices(m: AddressMap, order: seq<Field>, a: nat, i: nat)
    requires Packed(m, order) && i <= 6
    ensures Start(m.width, order, i) <= Width(m, order)
    ensures Assembled(m, order, Sliced(m, a), i) == LowBits(Shifted(a, Start(m.width, order, i)), Width(m, order) - Start(m.width, order, i))
    decreases 6 - i
  {
    hide LowBits, Shifted, Pow2;
    StartGrows(m.width, order, i, 6);
    if i == 6 {
      NoBits(Shifted(a, Start(m.width, order, 6)));
    } else {
      AssembledFromSlices(m, order, a, i + 1);
      var w, start := m.width.Get(order[i]), Start(m.width, order, i);
      assert Sliced(m, a).Get(order[i]) == Slice(m, a, order[i]);
      OneMoreSlice(a, start, w, Width(m, order) - Start(m.width, order, i + 1), Assembled(m, order, Sliced(m, a), i + 1),
                   Assembled(m, order, Sliced(m, a), i));
    }
  }

  lemma NoBits(a: nat)
    ensures LowBits(a, 0) == 0 && Shifted(a, 0) == a
  {
  }

  lemma OneMoreSlice(a: nat, start: nat, w: nat, n: nat, rest: nat, whole: nat)
    requires rest == LowBits(Shifted(a, start + w), n) && whole == LowBits(Shifted(a, start), w) + Pow2(w) * rest
    ensures whole == LowBits(Shifted(a, start), w + n)
  {
    ShiftedTwice(a, start, w);
    LowBitsSplit(Shifted(a, start), w, n);
  }

  lemma {:induction false} LowBitsSplit(a: nat, m: nat, n: nat)
    ensures LowBits(a, m + n) == LowBits(a, m) + Pow2(m) * LowBits(Shifted(a, m), n)
  {
    if m > 0 {
      LowBitsSplit(a / 2, m - 1, n);
      DoubleAll(LowBits(a / 2, m - 1), Pow2(m - 1), LowBits(Shifted(a / 2, m - 1), n));
      assert (m + n) - 1 == (m - 1) + n;
    }
  }

  lemma DoubleAll(low: nat, p: nat, high: nat)
    ensures 2 * (low + p * high) == 2 * low + (2 * p) * high
  {
    Associates(2, p, high);
  }

  lemma SlicesInRange(m: AddressMap, a: nat)
    ensures InRange(m, Sliced(m, a))
  {
    forall f
      ensures Sliced(m, a).Get(f) < Pow2(m.width.Get(f))
    {
      LowBitsAre(Shifted(a, m.pos.Get(f)), m.width.Get(f));
      assert Sliced(m, a).Get(f) == Slice(m, a, f);
    }
  }

  /** The fields of any address, assembled, are its remainder modulo two to the total width. */
  lemma AssembledAfterSliced(m: AddressMap, order: seq<Field>, a: nat)
    requires Packed(m, order)
    ensures Assembled(m, order, Sliced(m, a), 0) == a % Pow2(Width(m, order))
  {
    hide Packed, Assembled, Sliced, LowBits, Shifted, Pow2;
    AssembledFromSlices(m, order, a, 0);
    LowBitsOfWhole(a, Width(m, order));
  }

  lemma LowBitsOfWhole(a: nat, w: nat)
    ensures LowBits(Shifted(a, 0), w) == a % Pow2(w)
  {
    LowBitsAre(a, w);
    assert Shifted(a, 0) == a;
  }

  lemma SmallModulo(a: nat, n: nat)
    requires a < n
    ensures a % n == a
  {
  }

  /** Decoding maps the shifted addresses below two to the total width one-to-one onto the product of the field ranges. */
  lemma DecodingIsBijective(m: AddressMap, order: seq<Field>)
    requires Packed(m, order)
    ensures forall a: nat :: InRange(m, Sliced(m, a))
    ensures forall a: nat | a < Pow2(Width(m, order)) :: Assembled(m, order, Sliced(m, a), 0) == a
    ensures forall v | InRange(m, v) :: Assembled(m, order, v, 0) < Pow2(Width(m, order)) && Sliced(m, Assembled(m, order, v, 0)) == v
  {
    hide InRange, Sliced, Assembled, Width, Packed, Pow2;
    forall a: nat
      ensures InRange(m, Sliced(m, a))
    {
      SlicesInRange(m, a);
    }
    forall a: nat | a < Pow2(Width(m, order))
      ensures Assembled(m, order, Sliced(m, a), 0) == a
    {
      AssembledAfterSliced(m, order, a);
      SmallModulo(a, Pow2(Width(m, order)));
    }
    forall v | InRange(m, v)
      ensures Assembled(m, order, v, 0) < Pow2(Width(m, order)) && Sliced(m, Assembled(m, order, v, 0)) == v
    {
      AssembledInWidth(m, order, v);
      SlicedAfterAssembled(m, order, v);
    }
  }

  lemma AssembledInWidth(m: AddressMap, order: seq<Field>, v: SixFields)
    requires Packed(m, order) && InRange(m, v)
    ensures Assembled(m, order, v, 0) < Pow2(Width(m, order))
  {
    AssembledBelow(m, order, v, 0);
  }

  /** Two byte addresses share a DRAM cell exactly when they agree on the bits from the request size up to the total width. */
  lemma SameCellExactly(m: AddressMap, order: seq<Field>, x: nat, y: nat)
    requires Packed(m, order)
    ensures Decode(m, x) == Decode(m, y) <==>
            Shifted(x, m.shiftBits) % Pow2(Width(m, order)) == Shifted(y, m.shiftBits) % Pow2(Width(m, order))
  {
    var a, b := Shifted(x, m.shiftBits), Shifted(y, m.shiftBits);
    assert Decode(m, x) == Decode(m, y) <==> Sliced(m, a) == Sliced(m, b);
    AssembledAfterSliced(m, order, a);
    AssembledAfterSliced(m, order, b);
    SlicesInRange(m, a);
    SlicesInRange(m, b);
    SlicedAfterAssembled(m, order, Sliced(m, a));
    SlicedAfterAssembled(m, order, Sliced(m, b));
  }

  // ----- setting up the layout

  /** Rounds down: the largest power of two that is not above a positive argument. */
  method LogBase2(n: int) returns (i: nat)
    ensures n >= 1 ==> Pow2(i) <= n < 2 * Pow2(i)
    ensures n < 1 ==> i == 0
  {
    var rest := n;
    i := 0;
    while rest > 1
      invariant n >= 1 ==> rest >= 1 && Pow2(i) * rest <= n < Pow2(i) * (rest + 1)
      invariant n < 1 ==> i == 0 && rest == n
    {
      HalveStep(Pow2(i), rest, n);
      rest := rest / 2;
      i := i + 1;
    }
  }

  lemma HalveStep(p: nat, rest: nat, n: int)
    requires p * rest <= n < p * (rest + 1) && rest > 1
    ensures (2 * p) * (rest / 2) <= n < (2 * p) * (rest / 2 + 1)
  {
    var h := rest / 2;
    assert (2 * p) * h == p * (2 * h) && (2 * p) * (h + 1) == p * (2 * h + 2);
    assert p * (2 * h) <= p * rest;
    assert p * (rest + 1) <= p * (2 * h + 2);
  }

  function NameOf(f: Field): string {
    match f
    case Ch => "ch"
    case Ra => "ra"
    case Bg => "bg"
    case Ba => "ba"
    case Ro => "ro"
    case Co => "co"
  }

  /** No field has this name. */
  ghost predicate Unknown(name: string) {
    forall f :: NameOf(f) != name
  }

  method FieldNamed(name: string) returns (f: Option<Field>)
    ensures match f case None => Unknown(name) case Some(g) => NameOf(g) == name
  {
    if name == "ch" {
      f := Some(Ch);
    } else if name == "ra" {
      f := Some(Ra);
    } else if name == "bg" {
      f := Some(Bg);
    } else if name == "ba" {
      f := Some(Ba);
    } else if name == "ro" {
      f := Some(Ro);
    } else if name == "co" {
      f := Some(Co);
    } else {
      f := None;
    }
  }

  lemma NamesApart()
    ensures forall f, g :: NameOf(f) == NameOf(g) ==> f == g
  {
    assert NameOf(Ch)[0] == 'c' && NameOf(Co)[0] == 'c' && NameOf(Ch)[1] == 'h' && NameOf(Co)[1] == 'o';
    assert NameOf(Ra)[0] == 'r' && NameOf(Ro)[0] == 'r' && NameOf(Ra)[1] == 'a' && NameOf(Ro)[1] == 'o';
    assert NameOf(Bg)[0] == 'b' && NameOf(Ba)[0] == 'b' && NameOf(Bg)[1] == 'g' && NameOf(Ba)[1] == 'a';
  }

  /** `text` names the fields of `order` two characters each, the lowest field last. */
  ghost predicate Spells(text: string, order: seq<Field>) {
    |text| == 12 && |order| == 6 && forall i | 0 <= i < 6 :: text[2 * i..2 * i + 2] == NameOf(order[5 - i])
  }

  /** Each field is as wide as its count allows, rounding down; the low column bits address within a burst. */
  ghost predicate Wide(p: Config, width: SixFields) {
    (forall f: Field :: !f.Co? ==> Pow2(width.Get(f)) <= p.Count(f) < 2 * Pow2(width.Get(f))) &&
    exists low: nat :: ColumnsFit(p, width, low)
  }

  ghost predicate ColumnsFit(p: Config, width: SixFields, low: nat) {
    Pow2(low) <= p.BL < 2 * Pow2(low) && Pow2(width.co + low) <= p.columns < 2 * Pow2(width.co + low)
  }

  /** Every count is positive and a burst fits into a row. */
  predicate Countable(p: Config) {
    p.channels >= 1 && p.ranks >= 1 && p.bankgroups >= 1 && p.banksPerGroup >= 1 && p.rows >= 1 && p.columns >= p.BL >= 1
  }

  method FieldWidths(p: Config) returns (width: SixFields)
    requires Countable(p)
    ensures Wide(p, width)
  {
    var colLowBits := LogBase2(p.BL);
    var colBits := LogBase2(p.columns);
    var ch := LogBase2(p.channels);
    var ra := LogBase2(p.ranks);
    var bg := LogBase2(p.bankgroups);
    var ba := LogBase2(p.banksPerGroup);
    var ro := LogBase2(p.rows);
    if colBits < colLowBits {
      Pow2Grows(colBits + 1, colLowBits);
    }
    width := SixFields(ch, ra, bg, ba, ro, colBits - colLowBits);
    assert width.co + colLowBits == colBits && ColumnsFit(p, width, colLowBits);
  }

  /** Field `f` does not occur in the order after position `j`. */
  predicate LastAt(order: seq<Field>, j: nat)
    requires j < |order|
  {
    order[j] !in order[j + 1..]
  }

  ghost predicate Reads(tokens: seq<string>, order: seq<Field>, n: nat) {
    |tokens| == 6 && |order| == n <= 6 && forall j | 0 <= j < n :: tokens[5 - j] == NameOf(order[j])
  }

  /** Each field is entered where the fields already read end; a field named twice is entered twice. */
  ghost predicate Entered(width: SixFields, order: seq<Field>, pos: map<Field, nat>) {
    (forall f :: f in pos <==> f in order) &&
    forall j | 0 <= j < |order| && LastAt(order, j) :: pos[order[j]] == Start(width, order, j)
  }

  lemma EnterOne(width: SixFields, order: seq<Field>, pos: map<Field, nat>, f: Field)
    requires Entered(width, order, pos)
    ensures Entered(width, order + [f], pos[f := Start(width, order, |order|)])
  {
    hide Start;
    var now := order + [f];
    forall j | 0 <= j < |now| && LastAt(now, j)
      ensures pos[f := Start(width, order, |order|)][now[j]] == Start(width, now, j)
    {
      StartOfPrefix(width, order, f, j);
      if j < |order| {
        LastOfLonger(order, f, j);
      }
    }
  }

  lemma LastOfLonger(order: seq<Field>, f: Field, j: nat)
    requires j < |order| && LastAt(order + [f], j)
    ensures LastAt(order, j) && order[j] != f
  {
    assert (order + [f])[j + 1..] == order[j + 1..] + [f];
  }

  lemma {:induction false} StartOfPrefix(width: SixFields, order: seq<Field>, f: Field, i: nat)
    requires i <= |order|
    ensures Start(width, order + [f], i) == Start(width, order, i)
  {
    if i > 0 {
      StartOfPrefix(width, order, f, i - 1);
    }
  }

  /** Takes the names from the back; None where one of them is not a field's. */
  method Positions(tokens: seq<string>, width: SixFields) returns (fieldPos: Option<map<Field, nat>>, ghost order: seq<Field>)
    requires |tokens| == 6
    ensures fieldPos.Some? ==> Reads(tokens, order, 6) && Entered(width, order, fieldPos.value)
    ensures fieldPos.None? ==> exists i | 0 <= i < 6 :: Unknown(tokens[i])
  {
    var fields := tokens;
    var entered: map<Field, nat> := map[];
    var pos: nat := 0;
    order := [];
    while fields != []
      invariant |fields| <= 6 && fields == tokens[..|fields|] && Reads(tokens, order, 6 - |fields|)
      invariant Entered(width, order, entered) && pos == Start(width, order, |order|)
    {
      var token := fields[|fields| - 1];
      fields := fields[..|fields| - 1];
      var f := FieldNamed(token);
      if f.None? {
        assert tokens[|fields|] == token && Unknown(tokens[|fields|]);
        return None, order;
      }
      EnterOne(width, order, entered, f.value);
      StartOfPrefix(width, order, f.value, |order|);
      entered := entered[f.value := pos];
      pos := pos + width.Get(f.value);
      order := order + [f.value];
    }
    fieldPos := Some(entered);
  }

  lemma {:induction false} FewDistinct(s: seq<Field>)
    ensures |set f | f in s| <= |s|
  {
    if s != [] {
      FewDistinct(s[1..]);
      assert (set f | f in s) == (set f | f in s[1..]) + {s[0]};
    }
  }

  /** Six entries that name all six fields name each once. */
  lemma SixInSix(order: seq<Field>)
    requires |order| == 6 && forall f: Field :: f in order
    ensures Complete(order)
  {
    forall i, j | 0 <= i < j < 6
      ensures order[i] != order[j]
    {
      if order[i] == order[j] {
        var rest := order[..j] + order[j + 1..];
        FewDistinct(rest);
        forall f: Field
          ensures f in rest
        {
          assert f in order;
          var k :| 0 <= k < 6 && order[k] == f;
          if k < j {
            assert rest[k] == f;
          } else if k > j {
            assert rest[k - 1] == f;
          } else {
            assert rest[i] == f;
          }
        }
        assert {Ch, Ra, Bg, Ba, Ro, Co} <= set f | f in rest;
        SixFieldsCount(set f | f in rest);
      }
    }
  }

  lemma SixFieldsCount(s: set<Field>)
    requires {Ch, Ra, Bg, Ba, Ro, Co} <= s
    ensures |s| >= 6
  {
    var rest := s - {Ch, Ra, Bg, Ba, Ro, Co};
    assert s == rest + {Ch, Ra, Bg, Ba, Ro, Co};
  }

  lemma SameReading(tokens: seq<string>, order: seq<Field>, other: seq<Field>)
    requires Reads(tokens, order, 6) && Reads(tokens, other, 6)
    ensures order == other
  {
    NamesApart();
  }

  /** A complete order is entered at its packed positions. */
  lemma EnteredIsPacked(m: AddressMap, order: seq<Field>, pos: map<Field, nat>)
    requires Complete(order) && Entered(m.width, order, pos) && forall f: Field :: f in pos && m.pos.Get(f) == pos[f]
    ensures Packed(m, order)
  {
    forall i | 0 <= i < 6
      ensures m.pos.Get(order[i]) == Start(m.width, order, i)
    {
      assert LastAt(order, i);
    }
  }

  function Tokens(text: string): seq<string>
    requires |text| == 12
  {
    [text[0..2], text[2..4], text[4..6], text[6..8], text[8..10], text[10..12]]
  }

  lemma SpellsIsReads(text: string, order: seq<Field>)
    requires |text| == 12
    ensures Spells(text, order) <==> Reads(Tokens(text), order, 6)
  {
    forall i | 0 <= i < 6
      ensures Tokens(text)[i] == text[2 * i..2 * i + 2]
    {
    }
    if Reads(Tokens(text), order, 6) {
      forall i | 0 <= i < 6
        ensures text[2 * i..2 * i + 2] == NameOf(order[5 - i])
      {
        assert Tokens(text)[5 - (5 - i)] == NameOf(order[5 - i]);
      }
    }
    if Spells(text, order) {
      forall j | 0 <= j < 6
        ensures Tokens(text)[5 - j] == NameOf(order[j])
      {
        assert text[2 * (5 - j)..2 * (5 - j) + 2] == NameOf(order[5 - (5 - j)]);
      }
    }
  }

  /** The text is cut into names of two characters. */
  method Split(text: string) returns (fields: seq<string>)
    requires |text| == 12
    ensures fields == Tokens(text)
  {
    fields := [];
    var i := 0;
    while i < 12
      invariant 0 <= i <= 12 && i == 2 * |fields| && fields == Tokens(text)[..|fields|]
    {
      assert text[i..i + 2] == Tokens(text)[|fields|];
      fields := fields + [text[i..i + 2]];
      i := i + 2;
    }
  }

  /** Looking up the position of each field throws where it was never named. */
  predicate AllSix(pos: map<Field, nat>) {
    Ch in pos && Ra in pos && Bg in pos && Ba in pos && Ro in pos && Co in pos
  }

  lemma AllSixIs(pos: map<Field, nat>)
    ensures AllSix(pos) <==> forall f: Field :: f in pos
  {
    if AllSix(pos) {
      forall f: Field
        ensures f in pos
      {
        match f
        case Ch => case Ra => case Bg => case Ba => case Ro => case Co =>
      }
    }
  }

  lemma AllAreNamed(text: string, width: SixFields, order: seq<Field>, at: map<Field, nat>, pos: SixFields)
    requires |text| == 12 && Reads(Tokens(text), order, 6) && Entered(width, order, at)
    requires AllSix(at) && pos == SixFields(at[Ch], at[Ra], at[Bg], at[Ba], at[Ro], at[Co])
    ensures Spells(text, order) && forall shiftBits :: Packed(AddressMap(shiftBits, pos, width), order)
  {
    hide Tokens, Spells, Reads, Packed, Complete;
    SpellsIsReads(text, order);
    AllSixIs(at);
    NamedSix(text, order);
    SixInSix(order);
    hide Entered;
    forall f: Field
      ensures pos.Get(f) == at[f]
    {
      match f
      case Ch => case Ra => case Bg => case Ba => case Ro => case Co =>
    }
    forall shiftBits
      ensures Packed(AddressMap(shiftBits, pos, width), order)
    {
      EnteredIsPacked(AddressMap(shiftBits, pos, width), order, at);
    }
  }

  lemma NamedSix(text: string, order: seq<Field>)
    requires |text| == 12 && Reads(Tokens(text), order, 6)
    ensures |order| == 6
  {
  }

  lemma SomeIsMissing(text: string, width: SixFields, order: seq<Field>, at: map<Field, nat>)
    requires |text| == 12 && Reads(Tokens(text), order, 6) && Entered(width, order, at) && !AllSix(at)
    ensures forall other | Complete(other) :: !Spells(text, other)
  {
    hide Tokens, Spells, Reads, AllSix;
    AllSixIs(at);
    forall other | Complete(other)
      ensures !Spells(text, other)
    {
      SpellsIsReads(text, other);
      if Spells(text, other) {
        SameReading(Tokens(text), order, other);
      }
    }
  }

  /** Where the fields start; None where some name is unknown or some field is missing. */
  method PlaceFields(text: string, width: SixFields) returns (pos: Option<SixFields>, ghost order: seq<Field>)
    requires |text| == 12
    ensures pos.Some? ==> Spells(text, order) && forall shiftBits :: Packed(AddressMap(shiftBits, pos.value, width), order)
    ensures pos.None? ==> forall other | Complete(other) :: !Spells(text, other)
  {
    pos := None;
    var fields := Split(text);
    var fieldPos;
    fieldPos, order := Positions(fields, width);
    if fieldPos.None? {
      UnknownName(text, fields);
      return;
    }
    var at := fieldPos.value;
    if AllSix(at) {
      pos := Some(SixFields(at[Ch], at[Ra], at[Bg], at[Ba], at[Ro], at[Co]));
      AllAreNamed(text, width, order, at, pos.value);
    } else {
      SomeIsMissing(text, width, order, at);
    }
  }

  lemma ReadsName(tokens: seq<string>, order: seq<Field>, i: nat)
    requires Reads(tokens, order, 6) && i < 6
    ensures exists f :: NameOf(f) == tokens[i]
  {
    var j := 5 - i;
    assert tokens[5 - j] == NameOf(order[j]);
  }

  lemma UnknownName(text: string, tokens: seq<string>)
    requires |text| == 12 && tokens == Tokens(text) && exists i | 0 <= i < 6 :: Unknown(tokens[i])
    ensures forall other :: !Spells(text, other)
  {
    var i :| 0 <= i < 6 && Unknown(tokens[i]);
    forall other
      ensures !Spells(text, other)
    {
      SpellsIsReads(text, other);
      if Reads(tokens, other, 6) {
        ReadsName(tokens, other, i);
      }
    }
  }

  /** The layout read off the mapping text; None where the program aborts or throws. */
  method SetAddressMapping(p: Config, text: string) returns (m: Option<AddressMap>, ghost order: seq<Field>)
    requires Countable(p)
    ensures m.Some? ==> Spells(text, order) && Packed(m.value, order) && Wide(p, m.value.width)
    ensures m.Some? && p.busWidth >= 8 ==> Pow2(m.value.shiftBits) <= p.busWidth / 8 * p.BL < 2 * Pow2(m.value.shiftBits)
    ensures m.None? ==> forall other | Complete(other) :: !Spells(text, other)
  {
    assert p.busWidth >= 8 ==> p.busWidth / 8 * p.BL >= 1;
    var shiftBits := LogBase2(p.busWidth / 8 * p.BL);
    var width := FieldWidths(p);
    order, m := [], None;
    if |text| != 12 {
      return;
    }
    var pos;
    pos, order := PlaceFields(text, width);
    if pos.Some? {
      m := Some(AddressMap(shiftBits, pos.value, width));
    }
  }

  // ----- what the layout means for the controller

  /** The channel a system sends an address to: always the one the address decodes to. */
  function GetChannel(m: AddressMap, hexAddr: nat): (c: nat)
    ensures c == Decode(m, hexAddr).channel
  {
    LowBits(Shifted(Shifted(hexAddr, m.shiftBits), m.pos.ch), m.width.ch)
  }

  lemma LowBitsBelow(a: nat, w: nat)
    ensures LowBits(a, w) < Pow2(w)
  {
    LowBitsAre(a, w);
  }

  lemma ColumnRange(p: Config, width: SixFields)
    requires Wide(p, width)
    ensures Pow2(width.co) <= p.columns
  {
    var low: nat :| ColumnsFit(p, width, low);
    Pow2Grows(width.co, width.co + low);
  }

  lemma FieldInBounds(p: Config, m: AddressMap, a: nat, f: Field)
    requires Wide(p, m.width)
    ensures Slice(m, a, f) < p.Count(f)
  {
    LowBitsBelow(Shifted(a, m.pos.Get(f)), m.width.Get(f));
    if f.Co? {
      ColumnRange(p, m.width);
    } else {
      assert Pow2(m.width.Get(f)) <= p.Count(f);
    }
  }

  /** Every address decodes to a place that exists, even when the counts are not powers of two. */
  lemma DecodeInBounds(p: Config, m: AddressMap, x: nat)
    requires Wide(p, m.width)
    ensures var a := Decode(m, x);
            0 <= a.channel < p.channels && 0 <= a.rank < p.ranks && 0 <= a.bankgroup < p.bankgroups &&
            0 <= a.bank < p.banksPerGroup && 0 <= a.row < p.rows && 0 <= a.column < p.columns
  {
    var v := Shifted(x, m.shiftBits);
    FieldInBounds(p, m, v, Ch);
    FieldInBounds(p, m, v, Ra);
    FieldInBounds(p, m, v, Bg);
    FieldInBounds(p, m, v, Ba);
    FieldInBounds(p, m, v, Ro);
    FieldInBounds(p, m, v, Co);
  }

  /** A configuration whose mapping is such a layout meets what the theorems about the controller ask of it. */
  lemma LayoutIsUsable(p: Config, m: AddressMap)
    requires Countable(p) && Wide(p, m.width) && forall x: nat :: p.AddressMapping(x) == Decode(m, x)
    ensures ChannelInv.Usable(p)
  {
    forall x: nat
      ensures p.HasLoc(ChannelInv.Target(p, x))
    {
      DecodeInBounds(p, m, x);
      assert p.AddressMapping(x) == Decode(m, x);
    }
  }

  ghost predicate Reached(m: AddressMap, f: Field, c: nat) {
    exists a: nat :: Slice(m, a, f) == c
  }

  /** Every value of a field below its count is decoded from some address exactly when the count is a power of two. */
  lemma EveryValueReachedExactly(p: Config, m: AddressMap, order: seq<Field>, f: Field)
    requires Packed(m, order) && Wide(p, m.width) && !f.Co?
    ensures (forall c: nat | c < p.Count(f) :: Reached(m, f, c)) <==> exists n: nat :: p.Count(f) == Pow2(n)
  {
    var top := Pow2(m.width.Get(f));
    if p.Count(f) == top {
      forall c: nat | c < p.Count(f)
        ensures Reached(m, f, c)
      {
        var v := SixFields(0, 0, 0, 0, 0, 0).Set(f, c);
        SlicedAfterAssembled(m, order, v);
        var a := Assembled(m, order, v, 0);
        assert Slice(m, a, f) == Sliced(m, a).Get(f) == c;
      }
    } else {
      forall a: nat
        ensures Slice(m, a, f) != top
      {
        LowBitsAre(Shifted(a, m.pos.Get(f)), m.width.Get(f));
      }
      assert top < p.Count(f) && !Reached(m, f, top);
      forall n: nat
        ensures p.Count(f) != Pow2(n)
      {
        if n <= m.width.Get(f) {
          Pow2Grows(n, m.width.Get(f));
        } else {
          Pow2Grows(m.width.Get(f) + 1, n);
        }
      }
    }
  }

  // ----- ranks

  /** The part of the configuration that settles how many ranks a channel has. */
  class Geometry {
    const busWidth: nat
    const deviceWidth: nat
    const columns: nat
    const rows: nat
    const banks: nat
    var devicesPerRank: nat
    var channelSize: nat
    var ranks: nat

    constructor (busWidth: nat, deviceWidth: nat, columns: nat, rows: nat, banks: nat, channelSize: nat)
      ensures this.busWidth == busWidth && this.deviceWidth == deviceWidth && this.columns == columns
      ensures this.rows == rows && this.banks == banks && this.channelSize == channelSize
    {
      this.busWidth, this.deviceWidth, this.columns, this.rows, this.banks := busWidth, deviceWidth, columns, rows, banks;
      this.channelSize, devicesPerRank, ranks := channelSize, 0, 0;
    }

    ghost function MegsPerRank(): nat
      requires deviceWidth > 0
    {
      columns * deviceWidth / 8 * (rows / 1024) / 1024 * banks * (busWidth / deviceWidth)
    }

    /**
      There is at least one rank; the channel is made of whole ranks, and is the largest such that fits the
      requested size, or a single rank when not even one fits.
     */
    method CalculateSize()
      requires deviceWidth > 0 && MegsPerRank() > 0
      modifies `devicesPerRank, `channelSize, `ranks
      ensures ranks >= 1 && devicesPerRank == busWidth / deviceWidth && channelSize == ranks * MegsPerRank()
      ensures if MegsPerRank() > old(channelSize) then ranks == 1 else channelSize <= old(channelSize) < channelSize + MegsPerRank()
    {
      devicesPerRank := busWidth / deviceWidth;
      var pageSize := columns * deviceWidth / 8;
      var megsPerBank := pageSize * (rows / 1024) / 1024;
      var megsPerRank := megsPerBank * banks * devicesPerRank;
      if megsPerRank > channelSize {
        ranks := 1;
        channelSize := megsPerRank;
      } else {
        WholeRanks(channelSize, megsPerRank);
        ranks := channelSize / megsPerRank;
        channelSize := ranks * megsPerRank;
      }
    }
  }

  /** Where nothing is rounded, the megabytes of a rank are the bits of all its devices' cells. */
  lemma RankHoldsItsCells(g: Geometry)
    requires g.deviceWidth > 0 && g.columns * g.deviceWidth % 8 == 0 && g.rows % 1024 == 0
    requires g.columns * g.deviceWidth / 8 * (g.rows / 1024) % 1024 == 0
    ensures g.MegsPerRank() * 1024 * 1024 * 8 == g.columns * g.deviceWidth * g.rows * g.banks * (g.busWidth / g.deviceWidth)
  {
    var bits, page, thousands := g.columns * g.deviceWidth, g.columns * g.deviceWidth / 8, g.rows / 1024;
    var cells := page * thousands;
    var megs, n := cells / 1024, g.banks * (g.busWidth / g.deviceWidth);
    assert bits == page * 8 && g.rows == thousands * 1024 && cells == megs * 1024;
    Regrouped(megs, g.banks, g.busWidth / g.deviceWidth);
    calc {
      g.MegsPerRank() * 1024 * 1024 * 8;
      megs * n * 1024 * 1024 * 8;
      { Regrouped(megs, n, 1024); Regrouped(megs, 1024, n); }
      (megs * 1024) * n * 1024 * 8;
      (page * thousands) * n * 1024 * 8;
      { Spread(page, thousands, n); }
      (page * 8) * (thousands * 1024) * n;
    }
    Regrouped(bits * g.rows, g.banks, g.busWidth / g.deviceWidth);
  }

  lemma Regrouped(a: int, b: int, c: int)
    ensures a * b * c == a * (b * c) == a * (c * b)
  {
  }

  lemma Spread(a: int, b: int, c: int)
    ensures (a * b) * c * 1024 * 8 == (a * 8) * (b * 1024) * c
  {
    assert (a * 8) * (b * 1024) == (a * b) * 8192;
  }

  lemma WholeRanks(size: nat, megs: nat)
    requires 0 < megs <= size
    ensures size / megs >= 1 && size / megs * megs <= size < size / megs * megs + megs
  {
  }
}
