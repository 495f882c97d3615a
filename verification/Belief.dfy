/** The posterior over the rival's cell: every observation rewrites the grid and
    normalises it. */
module Belief {
  import opened Primitives
  import opened Boards
  import opened Scent

  const SCENT_FLOOR: real := 0.05
  const ORIGIN_BOOST: real := 25.0

  // --- sums -------------------------------------------------------------------

  function RowSum(row: seq<real>): real {
    if row == [] then 0.0 else RowSum(row[..|row| - 1]) + row[|row| - 1]
  }

  function Total(f: Field): real {
    if f == [] then 0.0 else Total(f[..|f| - 1]) + RowSum(f[|f| - 1])
  }

  function At(g: nat, f: Field, c: Cell): real
    requires Square(g, f)
  {
    if InBounds(g, c) then f[c.row][c.col] else 0.0
  }

  function Put(g: nat, f: Field, c: Cell, x: real): (f': Field)
    requires Square(g, f) && InBounds(g, c)
    ensures Square(g, f')
    ensures forall d :: At(g, f', d) == if d == c then x else At(g, f, d)
  {
    f[c.row := f[c.row][c.col := x]]
  }

  lemma {:induction false} RowPut(row: seq<real>, k: nat, x: real)
    requires k < |row|
    ensures RowSum(row[k := x]) == RowSum(row) - row[k] + x
  {
    var n := |row| - 1;
    if k < n {
      RowPut(row[..n], k, x);
      assert row[k := x][..n] == row[..n][k := x];
    } else {
      assert row[k := x][..n] == row[..n];
    }
  }

  lemma {:induction false} TotalRow(f: Field, k: nat, row: seq<real>)
    requires k < |f|
    ensures Total(f[k := row]) == Total(f) - RowSum(f[k]) + RowSum(row)
  {
    var n := |f| - 1;
    if k < n {
      TotalRow(f[..n], k, row);
      assert f[k := row][..n] == f[..n][k := row];
    } else {
      assert f[k := row][..n] == f[..n];
    }
  }

  lemma TotalPut(g: nat, f: Field, c: Cell, x: real)
    requires Square(g, f) && InBounds(g, c)
    ensures Total(Put(g, f, c, x)) == Total(f) - At(g, f, c) + x
  {
    RowPut(f[c.row], c.col, x);
    TotalRow(f, c.row, f[c.row][c.col := x]);
  }

  // --- normalising ------------------------------------------------------------

  function Uniform(g: nat): (f: Field)
    requires g > 0
    ensures Square(g, f)
    ensures forall r, c :: 0 <= r < g && 0 <= c < g ==> f[r][c] == 1.0 / (g as real * g as real)
  {
    seq(g, r => seq(g, c => 1.0 / (g as real * g as real)))
  }

  function Scaled(g: nat, f: Field, total: real): (f': Field)
    requires Square(g, f) && total > 0.0
    ensures Square(g, f')
    ensures forall r, c :: 0 <= r < g && 0 <= c < g ==> f'[r][c] == f[r][c] / total
  {
    seq(g, r requires 0 <= r < g => seq(g, c requires 0 <= c < g => f[r][c] / total))
  }

  function Normalised(g: nat, f: Field): (f': Field)
    requires g > 0 && Square(g, f)
    ensures Square(g, f')
  {
    if Total(f) <= 0.0 then Uniform(g) else Scaled(g, f, Total(f))
  }

  predicate Distribution(g: nat, f: Field)
    requires Square(g, f)
  {
    NonNegative(g, f) && Total(f) == 1.0
  }

  function Times(n: nat, x: real): real { if n == 0 then 0.0 else Times(n - 1, x) + x }

  lemma {:induction false} TimesIsProduct(n: nat, x: real)
    ensures Times(n, x) == n as real * x
  {
    if n > 0 {
      TimesIsProduct(n - 1, x);
    }
  }

  lemma {:induction false} RowConstant(row: seq<real>, x: real)
    requires forall i :: 0 <= i < |row| ==> row[i] == x
    ensures RowSum(row) == Times(|row|, x)
  {
    if row != [] {
      RowConstant(row[..|row| - 1], x);
    }
  }

  lemma {:induction false} RowsConstant(f: Field, x: real)
    requires forall i :: 0 <= i < |f| ==> RowSum(f[i]) == x
    ensures Total(f) == Times(|f|, x)
  {
    if f != [] {
      RowsConstant(f[..|f| - 1], x);
    }
  }

  lemma SquareTotal(g: nat, f: Field, x: real)
    requires Square(g, f) && forall r, c :: 0 <= r < g && 0 <= c < g ==> f[r][c] == x
    ensures Total(f) == Times(g, Times(g, x))
  {
    forall r | 0 <= r < g ensures RowSum(f[r]) == Times(g, x) {
      assert |f[r]| == g;
      RowConstant(f[r], x);
    }
    RowsConstant(f, Times(g, x));
  }

  lemma Squared(x: real)
    requires x > 0.0
    ensures x * x > 0.0 && 1.0 / (x * x) > 0.0 && x * (x * (1.0 / (x * x))) == 1.0
  {
    var u := 1.0 / (x * x);
    assert x * (x * u) == (x * x) * u;
  }

  lemma UniformIsDistribution(g: nat)
    requires g > 0
    ensures Distribution(g, Uniform(g))
    ensures forall c :: InBounds(g, c) ==> At(g, Uniform(g), c) > 0.0
  {
    var u := 1.0 / (g as real * g as real);
    Squared(g as real);
    SquareTotal(g, Uniform(g), u);
    TimesIsProduct(g, u);
    TimesIsProduct(g, Times(g, u));
  }

  lemma SumQuotient(x: real, y: real, t: real)
    requires t > 0.0
    ensures (x + y) / t == x / t + y / t
  {
  }

  lemma {:induction false} RowScaled(row: seq<real>, row': seq<real>, t: real)
    requires t > 0.0 && |row'| == |row| && forall i :: 0 <= i < |row| ==> row'[i] == row[i] / t
    ensures RowSum(row') == RowSum(row) / t
  {
    if row != [] {
      RowScaled(row[..|row| - 1], row'[..|row| - 1], t);
    }
  }

  lemma {:induction false} RowsScaled(f: Field, f': Field, t: real)
    requires t > 0.0 && |f'| == |f| && forall i :: 0 <= i < |f| ==> RowSum(f'[i]) == RowSum(f[i]) / t
    ensures Total(f') == Total(f) / t
  {
    if f != [] {
      var n := |f| - 1;
      RowsScaled(f[..n], f'[..n], t);
      SumQuotient(Total(f[..n]), RowSum(f[n]), t);
    }
  }

  lemma ScaledTotal(g: nat, f: Field, t: real)
    requires Square(g, f) && t > 0.0
    ensures Total(Scaled(g, f, t)) == Total(f) / t
  {
    var f' := Scaled(g, f, t);
    forall r | 0 <= r < g ensures RowSum(f'[r]) == RowSum(f[r]) / t {
      RowScaled(f[r], f'[r], t);
    }
    RowsScaled(f, f', t);
  }

  /** Whatever non-negative grid an observation leaves, what is stored is a
      distribution; and unless everything was annihilated no mass is lost to zero. */
  lemma NormalisedIsDistribution(g: nat, f: Field)
    requires g > 0 && Square(g, f) && NonNegative(g, f)
    ensures Distribution(g, Normalised(g, f))
    ensures forall c :: At(g, f, c) > 0.0 ==> At(g, Normalised(g, f), c) > 0.0
  {
    if Total(f) <= 0.0 {
      UniformIsDistribution(g);
    } else {
      var t, f' := Total(f), Scaled(g, f, Total(f));
      ScaledTotal(g, f, t);
      SelfQuotient(t);
      forall r, c | 0 <= r < g && 0 <= c < g ensures f'[r][c] >= 0.0 && (f[r][c] > 0.0 ==> f'[r][c] > 0.0) {
        Quotient(f[r][c], t);
      }
    }
  }

  lemma SelfQuotient(t: real)
    requires t > 0.0
    ensures t / t == 1.0
  {
  }

  lemma Quotient(x: real, t: real)
    requires t > 0.0 && x >= 0.0
    ensures x / t >= 0.0 && (x > 0.0 ==> x / t > 0.0)
  {
  }

  // --- moving mass ------------------------------------------------------------

  /** Where the mass of a cell goes, in equal shares; nowhere if the list is empty. */
  type Flow = Cell -> seq<Cell>

  ghost predicate ProperAt(g: nat, targets: seq<Cell>) {
    Distinct(targets) && forall d :: d in targets ==> InBounds(g, d)
  }

  ghost predicate Proper(g: nat, flow: Flow) { forall c :: InBounds(g, c) ==> ProperAt(g, flow(c)) }

  function Shared(g: nat, f: Field, targets: seq<Cell>, share: real): (f': Field)
    requires Square(g, f)
    ensures Square(g, f')
  {
    if targets == [] then f
    else
      var n := |targets| - 1;
      var before := Shared(g, f, targets[..n], share);
      if InBounds(g, targets[n]) then Put(g, before, targets[n], At(g, before, targets[n]) + share) else before
  }

  /** The mass of one cell, poured out. */
  function Poured(g: nat, p: Field, flow: Flow, f: Field, c: Cell): (f': Field)
    requires Square(g, p) && Square(g, f)
    ensures Square(g, f')
  {
    if At(g, p, c) == 0.0 || flow(c) == [] then f
    else Shared(g, f, flow(c), At(g, p, c) / |flow(c)| as real)
  }

  function PouredRow(g: nat, p: Field, flow: Flow, f: Field, row: int, n: nat): (f': Field)
    requires Square(g, p) && Square(g, f)
    ensures Square(g, f')
  {
    if n == 0 then f else Poured(g, p, flow, PouredRow(g, p, flow, f, row, n - 1), Cell(row, n - 1))
  }

  /** The grid after the mass of the first `rows` rows has moved. */
  function Moved(g: nat, p: Field, flow: Flow, rows: nat): (f': Field)
    requires Square(g, p)
    ensures Square(g, f')
  {
    if rows == 0 then Silence(g) else PouredRow(g, p, flow, Moved(g, p, flow, rows - 1), rows - 1, g)
  }

  lemma {:induction false} SharedAt(g: nat, f: Field, targets: seq<Cell>, share: real, d: Cell)
    requires Square(g, f) && Distinct(targets) && forall i :: 0 <= i < |targets| ==> InBounds(g, targets[i])
    ensures At(g, Shared(g, f, targets, share), d) == At(g, f, d) + if d in targets then share else 0.0
  {
    if targets != [] {
      var n := |targets| - 1;
      SharedAt(g, f, targets[..n], share, d);
      assert targets == targets[..n] + [targets[n]];
    }
  }

  lemma {:induction false} SharedTotal(g: nat, f: Field, targets: seq<Cell>, share: real)
    requires Square(g, f) && forall i :: 0 <= i < |targets| ==> InBounds(g, targets[i])
    ensures Total(Shared(g, f, targets, share)) == Total(f) + Times(|targets|, share)
  {
    if targets != [] {
      var n := |targets| - 1;
      SharedTotal(g, f, targets[..n], share);
      var before := Shared(g, f, targets[..n], share);
      TotalPut(g, before, targets[n], At(g, before, targets[n]) + share);
    }
  }

  lemma PartsAddUp(x: real, n: nat)
    requires n > 0
    ensures Times(n, x / n as real) == x
  {
    TimesIsProduct(n, x / n as real);
    Parts(x, n);
  }

  lemma Parts(x: real, n: nat)
    requires n > 0
    ensures n as real * (x / n as real) == x
    ensures x == 0.0 ==> x / n as real == 0.0
    ensures x >= 0.0 ==> x / n as real >= 0.0
    ensures x > 0.0 ==> x / n as real > 0.0
  {
  }

  /** What the mass of `c` adds at `d`. */
  function Inflow(g: nat, p: Field, flow: Flow, c: Cell, d: Cell): real
    requires Square(g, p)
  {
    if d in flow(c) then At(g, p, c) / |flow(c)| as real else 0.0
  }

  lemma InflowFacts(g: nat, p: Field, flow: Flow, c: Cell, d: Cell)
    requires Square(g, p)
    ensures At(g, p, c) == 0.0 ==> Inflow(g, p, flow, c, d) == 0.0
    ensures At(g, p, c) >= 0.0 ==> Inflow(g, p, flow, c, d) >= 0.0
    ensures At(g, p, c) > 0.0 && d in flow(c) ==> Inflow(g, p, flow, c, d) > 0.0
  {
    if d in flow(c) {
      Parts(At(g, p, c), |flow(c)|);
    }
  }

  /** Pouring one cell adds its share to each of its targets. */
  lemma PouredAt(g: nat, p: Field, flow: Flow, f: Field, c: Cell, d: Cell)
    requires Square(g, p) && Square(g, f) && Proper(g, flow) && InBounds(g, c)
    ensures At(g, Poured(g, p, flow, f, c), d) == At(g, f, d) + Inflow(g, p, flow, c, d)
  {
    InflowFacts(g, p, flow, c, d);
    if flow(c) != [] {
      SharedAt(g, f, flow(c), At(g, p, c) / |flow(c)| as real, d);
    }
  }

  /** ... and keeps its mass. */
  lemma PouredTotal(g: nat, p: Field, flow: Flow, f: Field, c: Cell)
    requires Square(g, p) && Square(g, f) && Proper(g, flow) && InBounds(g, c)
    ensures Total(Poured(g, p, flow, f, c)) == Total(f) + if flow(c) == [] then 0.0 else At(g, p, c)
  {
    if At(g, p, c) != 0.0 && flow(c) != [] {
      var x, n := At(g, p, c), |flow(c)|;
      assert forall i :: 0 <= i < n ==> flow(c)[i] in flow(c);
      SharedTotal(g, f, flow(c), x / n as real);
      PartsAddUp(x, n);
    }
  }

  /** The mass that is going anywhere. */
  function Carried(g: nat, p: Field, flow: Flow): (f: Field)
    requires Square(g, p)
    ensures Square(g, f)
    ensures forall r, c :: 0 <= r < g && 0 <= c < g ==> f[r][c] == if flow(Cell(r, c)) == [] then 0.0 else p[r][c]
  {
    seq(g, r requires 0 <= r < g => seq(g, c requires 0 <= c < g => if flow(Cell(r, c)) == [] then 0.0 else p[r][c]))
  }

  lemma {:induction false} RowConserves(g: nat, p: Field, flow: Flow, f: Field, row: int, n: nat)
    requires Square(g, p) && Square(g, f) && Proper(g, flow) && 0 <= row < g && n <= g
    ensures Total(PouredRow(g, p, flow, f, row, n)) == Total(f) + RowSum(Carried(g, p, flow)[row][..n])
  {
    if n > 0 {
      RowConserves(g, p, flow, f, row, n - 1);
      PouredTotal(g, p, flow, PouredRow(g, p, flow, f, row, n - 1), Cell(row, n - 1));
      var carried := Carried(g, p, flow)[row];
      assert carried[..n][..n - 1] == carried[..n - 1];
    }
  }

  lemma {:induction false} SilenceTotal(g: nat, rows: nat)
    requires rows <= g
    ensures Total(Silence(g)[..rows]) == 0.0
  {
    if rows > 0 {
      SilenceTotal(g, rows - 1);
      assert Silence(g)[..rows][..rows - 1] == Silence(g)[..rows - 1];
      RowConstant(Silence(g)[rows - 1], 0.0);
      TimesIsProduct(g, 0.0);
    }
  }

  lemma TotalNothing(f: Field)
    ensures Total(f[..0]) == 0.0
  {
  }

  lemma TotalOneMore(f: Field, rows: nat)
    requires 0 < rows <= |f|
    ensures Total(f[..rows]) == Total(f[..rows - 1]) + RowSum(f[rows - 1])
  {
    assert f[..rows][..rows - 1] == f[..rows - 1];
  }

  /** Moving mass about conserves it, but for what has nowhere to go. */
  lemma {:induction false} MovedConserves(g: nat, p: Field, flow: Flow, rows: nat)
    requires Square(g, p) && Proper(g, flow) && rows <= g
    ensures Total(Moved(g, p, flow, rows)) == Total(Carried(g, p, flow)[..rows])
  {
    hide Proper, Silence, Poured, Total, RowSum, Carried, PouredRow;
    if rows == 0 {
      SilenceTotal(g, g);
      assert Silence(g)[..g] == Silence(g);
      TotalNothing(Carried(g, p, flow));
    } else {
      MovedConserves(g, p, flow, rows - 1);
      RowConserves(g, p, flow, Moved(g, p, flow, rows - 1), rows - 1, g);
      var carried := Carried(g, p, flow);
      TotalOneMore(carried, rows);
      assert carried[rows - 1][..g] == carried[rows - 1];
    }
  }

  /** Only what is not negative moves. */
  ghost predicate Sourced(g: nat, p: Field, flow: Flow)
    requires Square(g, p)
  {
    forall c :: InBounds(g, c) ==> At(g, p, c) >= 0.0 || flow(c) == []
  }

  /** Every cell that has been poured has left its share at each of its targets. */
  lemma {:induction false} RowReaches(g: nat, p: Field, flow: Flow, f: Field, row: int, n: nat, c: Cell, d: Cell)
    requires Square(g, p) && Square(g, f) && Proper(g, flow) && 0 <= row < g && n <= g
    requires Sourced(g, p, flow)
    ensures At(g, PouredRow(g, p, flow, f, row, n), d) >= At(g, f, d)
    ensures c.row == row && 0 <= c.col < n ==>
      At(g, PouredRow(g, p, flow, f, row, n), d) >= At(g, f, d) + Inflow(g, p, flow, c, d)
  {
    if n > 0 {
      RowReaches(g, p, flow, f, row, n - 1, c, d);
      var last := Cell(row, n - 1);
      PouredAt(g, p, flow, PouredRow(g, p, flow, f, row, n - 1), last, d);
      InflowFacts(g, p, flow, last, d);
    }
  }

  lemma {:induction false} MovedReaches(g: nat, p: Field, flow: Flow, rows: nat, c: Cell, d: Cell)
    requires Square(g, p) && Proper(g, flow) && rows <= g && Sourced(g, p, flow)
    ensures At(g, Moved(g, p, flow, rows), d) >= 0.0
    ensures InBounds(g, c) && c.row < rows ==> At(g, Moved(g, p, flow, rows), d) >= Inflow(g, p, flow, c, d)
  {
    if rows > 0 {
      MovedReaches(g, p, flow, rows - 1, c, d);
      RowReaches(g, p, flow, Moved(g, p, flow, rows - 1), rows - 1, g, c, d);
    }
  }

  /** ... and where nothing flows in, nothing is. */
  lemma {:induction false} RowMisses(g: nat, p: Field, flow: Flow, f: Field, row: int, n: nat, d: Cell)
    requires Square(g, p) && Square(g, f) && Proper(g, flow) && 0 <= row < g && n <= g
    requires forall c :: InBounds(g, c) ==> Inflow(g, p, flow, c, d) == 0.0
    ensures At(g, PouredRow(g, p, flow, f, row, n), d) == At(g, f, d)
  {
    if n > 0 {
      RowMisses(g, p, flow, f, row, n - 1, d);
      PouredAt(g, p, flow, PouredRow(g, p, flow, f, row, n - 1), Cell(row, n - 1), d);
    }
  }

  lemma {:induction false} MovedMisses(g: nat, p: Field, flow: Flow, rows: nat, d: Cell)
    requires Square(g, p) && Proper(g, flow) && rows <= g
    requires forall c :: InBounds(g, c) ==> Inflow(g, p, flow, c, d) == 0.0
    ensures At(g, Moved(g, p, flow, rows), d) == 0.0
  {
    if rows > 0 {
      MovedMisses(g, p, flow, rows - 1, d);
      RowMisses(g, p, flow, Moved(g, p, flow, rows - 1), rows - 1, g, d);
    }
  }

  // --- observations -----------------------------------------------------------

  function IfPassable(g: nat, walls: set<Cell>, c: Cell): seq<Cell> { if Passable(g, walls, c) then [c] else [] }

  function StepsFrom(g: nat, walls: set<Cell>, c: Cell): seq<Cell> {
    IfPassable(g, walls, Applied(N, c)) + IfPassable(g, walls, Applied(S, c)) +
    IfPassable(g, walls, Applied(E, c)) + IfPassable(g, walls, Applied(W, c))
  }

  lemma StepsMembers(g: nat, walls: set<Cell>, c: Cell, d: Cell)
    ensures d in StepsFrom(g, walls, c) <==>
      Passable(g, walls, d) && (d == Applied(N, c) || d == Applied(S, c) || d == Applied(E, c) || d == Applied(W, c))
  {
    hide Passable;
  }

  lemma NextDoor(c: Cell, d: Cell)
    ensures Distance(c, d) == 1 <==>
      d == Applied(N, c) || d == Applied(S, c) || d == Applied(E, c) || d == Applied(W, c)
  {
  }

  lemma StepsDistinct(g: nat, walls: set<Cell>, c: Cell)
    ensures Distinct([c] + StepsFrom(g, walls, c))
  {
    hide Passable;
    var n, s, e, w := IfPassable(g, walls, Applied(N, c)), IfPassable(g, walls, Applied(S, c)),
      IfPassable(g, walls, Applied(E, c)), IfPassable(g, walls, Applied(W, c));
    DistinctConcat([c], n);
    DistinctConcat([c] + n, s);
    DistinctConcat([c] + n + s, e);
    DistinctConcat([c] + n + s + e, w);
    assert [c] + StepsFrom(g, walls, c) == [c] + n + s + e + w;
  }

  /** A cell and its open neighbours, each once. */
  lemma StepsFacts(g: nat, walls: set<Cell>, c: Cell)
    ensures Distinct([c] + StepsFrom(g, walls, c))
    ensures forall d :: d in StepsFrom(g, walls, c) <==> Passable(g, walls, d) && Distance(c, d) == 1
  {
    hide StepsFrom, Passable, Distance, Distinct;
    StepsDistinct(g, walls, c);
    forall d ensures d in StepsFrom(g, walls, c) <==> Passable(g, walls, d) && Distance(c, d) == 1 {
      StepsMembers(g, walls, c, d);
      NextDoor(c, d);
    }
  }

  /** The movement model: one orthogonal step or none; a walled cell holds nobody. */
  function DiffuseFlow(g: nat, walls: set<Cell>): Flow {
    (c: Cell) => if c in walls then [] else [c] + StepsFrom(g, walls, c)
  }

  /** A named step: blocked mass stays put. */
  function MotionFlow(g: nat, walls: set<Cell>, m: Move): Flow {
    (c: Cell) => [if Passable(g, walls, Applied(m, c)) then Applied(m, c) else c]
  }

  function Diffused(g: nat, p: Field, walls: set<Cell>): (f: Field)
    requires g > 0 && Square(g, p)
    ensures Square(g, f)
  {
    Normalised(g, Moved(g, p, DiffuseFlow(g, walls), g))
  }

  function Echoed(g: nat, p: Field, walls: set<Cell>, m: Move): (f: Field)
    requires g > 0 && Square(g, p)
    ensures Square(g, f)
  {
    if m == Stay then p else Normalised(g, Moved(g, p, MotionFlow(g, walls, m), g))
  }

  function Weighed(g: nat, p: Field, w: Cell -> real): (f: Field)
    requires Square(g, p)
    ensures Square(g, f)
    ensures forall r, c :: 0 <= r < g && 0 <= c < g ==> f[r][c] == p[r][c] * w(Cell(r, c))
  {
    seq(g, r requires 0 <= r < g => seq(g, c requires 0 <= c < g => p[r][c] * w(Cell(r, c))))
  }

  /** Silence is missing information, not impossibility; a barrier holds nobody. */
  function ScentWeight(g: nat, walls: set<Cell>, evidence: Field): Cell -> real
    requires Square(g, evidence)
  {
    (c: Cell) => if c in walls then 0.0 else SCENT_FLOOR + (if Square(g, evidence) then At(g, evidence, c) else 0.0)
  }

  function RegionWeight(region: set<Cell>, inside: real, outside: real): Cell -> real {
    (c: Cell) => if c in region then inside else outside
  }

  function PinWeight(pin: Cell): Cell -> real { (c: Cell) => if c == pin then ORIGIN_BOOST else 1.0 }

  /** Where the placer of a wall may stand; nobody stands on the wall itself. */
  function OriginWeight(g: nat, walls: set<Cell>, barrier: Cell): Cell -> real {
    (c: Cell) => if c == barrier then 0.0 else if c in StepsFrom(g, walls, barrier) then ORIGIN_BOOST else 1.0
  }

  function Reweighed(g: nat, p: Field, w: Cell -> real): (f: Field)
    requires g > 0 && Square(g, p)
    ensures Square(g, f)
  {
    Normalised(g, Weighed(g, p, w))
  }

  function Located(g: nat, p: Field, walls: set<Cell>, barrier: Cell): (f: Field)
    requires g > 0 && Square(g, p)
    ensures Square(g, f)
  {
    if StepsFrom(g, walls, barrier) == [] then p else Reweighed(g, p, OriginWeight(g, walls, barrier))
  }

  lemma DiffusionIsProper(g: nat, walls: set<Cell>)
    ensures Proper(g, DiffuseFlow(g, walls))
  {
    forall c | InBounds(g, c) ensures ProperAt(g, DiffuseFlow(g, walls)(c)) {
      StepsFacts(g, walls, c);
      if c in walls {
        assert DiffuseFlow(g, walls)(c) == [];
      } else {
        assert DiffuseFlow(g, walls)(c) == [c] + StepsFrom(g, walls, c);
      }
    }
  }

  lemma MotionIsProper(g: nat, walls: set<Cell>, m: Move)
    ensures Proper(g, MotionFlow(g, walls, m))
  {
  }

  /** The grid with the barriers blanked out. */
  function OffBarrier(g: nat, p: Field, walls: set<Cell>): (f: Field)
    requires Square(g, p)
    ensures Square(g, f)
    ensures forall r, c :: 0 <= r < g && 0 <= c < g ==> f[r][c] == if Cell(r, c) in walls then 0.0 else p[r][c]
  {
    seq(g, r requires 0 <= r < g => seq(g, c requires 0 <= c < g => if Cell(r, c) in walls then 0.0 else p[r][c]))
  }

  /** Diffusion conserves all mass that does not lie on a barrier. */
  lemma DiffusionConserves(g: nat, p: Field, walls: set<Cell>)
    requires g > 0 && Square(g, p)
    ensures Total(Moved(g, p, DiffuseFlow(g, walls), g)) == Total(OffBarrier(g, p, walls))
  {
    hide StepsFrom, Moved, Total, Proper;
    var flow := DiffuseFlow(g, walls);
    DiffusionIsProper(g, walls);
    MovedConserves(g, p, flow, g);
    assert Carried(g, p, flow)[..g] == Carried(g, p, flow);
    FieldsEqual(g, Carried(g, p, flow), OffBarrier(g, p, walls));
  }

  /** A named step conserves all mass. */
  lemma MotionConserves(g: nat, p: Field, walls: set<Cell>, m: Move)
    requires g > 0 && Square(g, p)
    ensures Total(Moved(g, p, MotionFlow(g, walls, m), g)) == Total(p)
  {
    hide Proper, Moved, Total;
    var flow := MotionFlow(g, walls, m);
    MotionIsProper(g, walls, m);
    MovedConserves(g, p, flow, g);
    assert Carried(g, p, flow)[..g] == Carried(g, p, flow);
    FieldsEqual(g, Carried(g, p, flow), p);
  }

  // --- the true cell keeps its mass -------------------------------------------

  /** Mass where the rival was gives mass wherever the flow may take it. */
  lemma MovedKeeps(g: nat, p: Field, flow: Flow, was: Cell, now: Cell)
    requires g > 0 && Square(g, p) && Proper(g, flow) && Distribution(g, p)
    requires InBounds(g, was) && now in flow(was) && At(g, p, was) > 0.0
    ensures Distribution(g, Normalised(g, Moved(g, p, flow, g)))
    ensures At(g, Normalised(g, Moved(g, p, flow, g)), now) > 0.0
  {
    forall r, c | 0 <= r < g && 0 <= c < g ensures Moved(g, p, flow, g)[r][c] >= 0.0 {
      MovedReaches(g, p, flow, g, was, Cell(r, c));
    }
    MovedReaches(g, p, flow, g, was, now);
    InflowFacts(g, p, flow, was, now);
    NormalisedIsDistribution(g, Moved(g, p, flow, g));
  }

  lemma Product(x: real, y: real)
    requires x >= 0.0 && y >= 0.0
    ensures x * y >= 0.0 && (x > 0.0 && y > 0.0 ==> x * y > 0.0)
  {
  }

  lemma ReweighedKeeps(g: nat, p: Field, w: Cell -> real, now: Cell)
    requires g > 0 && Square(g, p) && Distribution(g, p) && At(g, p, now) > 0.0
    requires w(now) > 0.0 && forall c :: InBounds(g, c) ==> w(c) >= 0.0
    ensures Distribution(g, Reweighed(g, p, w)) && At(g, Reweighed(g, p, w), now) > 0.0
  {
    forall r, c | 0 <= r < g && 0 <= c < g
      ensures Weighed(g, p, w)[r][c] >= 0.0 && (p[r][c] > 0.0 && w(Cell(r, c)) > 0.0 ==> Weighed(g, p, w)[r][c] > 0.0)
    {
      Product(p[r][c], w(Cell(r, c)));
    }
    assert now == Cell(now.row, now.col);
    NormalisedIsDistribution(g, Weighed(g, p, w));
  }

  // --- one turn of perception -------------------------------------------------

  datatype WeightedRegion = WeightedRegion(cells: set<Cell>, inside: real, outside: real)

  /** What one rival turn gives the observer: a move echo, a declared barrier, whether
      the frame was accepted, and the evidence of an accepted one. */
  datatype Sighting = Sighting(
    echo: Option<Move>, barrier: Option<Cell>, accepted: bool, evidence: Field,
    region: Option<WeightedRegion>, plateau: Option<Cell>, pin: Option<Cell>)
  {
    ghost predicate Fair(g: nat) {
      && Square(g, evidence) && NonNegative(g, evidence)
      && (region.Some? ==> region.value.inside > 0.0 && region.value.outside > 0.0)
    }
  }

  function Shifted(g: nat, p: Field, walls: set<Cell>, echo: Option<Move>): (f: Field)
    requires g > 0 && Square(g, p)
    ensures Square(g, f)
  {
    if echo.Some? then Echoed(g, p, walls, echo.value) else Diffused(g, p, walls)
  }

  /** Movement first, then the declared wall; a refused frame adds nothing more. */
  function Predicted(g: nat, p: Field, walls: set<Cell>, o: Sighting): (f: Field)
    requires g > 0 && Square(g, p)
    ensures Square(g, f)
  {
    var moved := Shifted(g, p, walls, o.echo);
    if o.barrier.Some? then Located(g, moved, walls, o.barrier.value) else moved
  }

  function Told(g: nat, p: Field, region: Option<WeightedRegion>): (f: Field)
    requires g > 0 && Square(g, p)
    ensures Square(g, f)
  {
    if region.None? then p
    else Reweighed(g, p, RegionWeight(region.value.cells, region.value.inside, region.value.outside))
  }

  function Boosted(g: nat, p: Field, pin: Option<Cell>): (f: Field)
    requires g > 0 && Square(g, p)
    ensures Square(g, f)
  {
    if pin.Some? then Reweighed(g, p, PinWeight(pin.value)) else p
  }

  /** An accepted frame: scent, then talk, then the shape of the trail, then its head. */
  function Weighted(g: nat, p: Field, walls: set<Cell>, o: Sighting): (f: Field)
    requires g > 0 && Square(g, p) && Square(g, o.evidence)
    ensures Square(g, f)
  {
    Boosted(g, Boosted(g, Told(g, Reweighed(g, p, ScentWeight(g, walls, o.evidence)), o.region), o.plateau), o.pin)
  }

  /** The order of Perception.observe. */
  function Perceived(g: nat, p: Field, walls: set<Cell>, o: Sighting): (f: Field)
    requires g > 0 && Square(g, p) && Square(g, o.evidence)
    ensures Square(g, f)
  {
    var predicted := Predicted(g, p, walls, o);
    if o.accepted then Weighted(g, predicted, walls, o) else predicted
  }

  /** The rival's real step, with a truthful echo if it echoed one. */
  predicate Steps(g: nat, walls: set<Cell>, echo: Option<Move>, was: Cell, now: Cell) {
    && Passable(g, walls, was) && Passable(g, walls, now) && Distance(was, now) <= 1
    && (echo.Some? ==> now == if Passable(g, walls, Applied(echo.value, was)) then Applied(echo.value, was) else was)
  }

  lemma ShiftedKeeps(g: nat, p: Field, walls: set<Cell>, echo: Option<Move>, was: Cell, now: Cell)
    requires g > 0 && Square(g, p) && Distribution(g, p) && At(g, p, was) > 0.0
    requires Steps(g, walls, echo, was, now)
    ensures Distribution(g, Shifted(g, p, walls, echo)) && At(g, Shifted(g, p, walls, echo), now) > 0.0
  {
    if echo.None? {
      DiffusionIsProper(g, walls);
      StepsFacts(g, walls, was);
      assert Distance(was, now) == 0 ==> was == now;
      assert now in DiffuseFlow(g, walls)(was);
      MovedKeeps(g, p, DiffuseFlow(g, walls), was, now);
    } else if echo.value != Stay {
      MotionIsProper(g, walls, echo.value);
      assert now in MotionFlow(g, walls, echo.value)(was);
      MovedKeeps(g, p, MotionFlow(g, walls, echo.value), was, now);
    }
  }

  lemma LocatedKeeps(g: nat, p: Field, walls: set<Cell>, barrier: Cell, now: Cell)
    requires g > 0 && Square(g, p) && Distribution(g, p) && At(g, p, now) > 0.0 && barrier != now
    ensures Distribution(g, Located(g, p, walls, barrier)) && At(g, Located(g, p, walls, barrier), now) > 0.0
  {
    if StepsFrom(g, walls, barrier) != [] {
      ReweighedKeeps(g, p, OriginWeight(g, walls, barrier), now);
    }
  }

  lemma PredictedKeeps(g: nat, p: Field, walls: set<Cell>, o: Sighting, was: Cell, now: Cell)
    requires g > 0 && Square(g, p) && Distribution(g, p) && At(g, p, was) > 0.0
    requires Steps(g, walls, o.echo, was, now) && o.barrier != Some(now)
    ensures Distribution(g, Predicted(g, p, walls, o)) && At(g, Predicted(g, p, walls, o), now) > 0.0
  {
    ShiftedKeeps(g, p, walls, o.echo, was, now);
    if o.barrier.Some? {
      LocatedKeeps(g, Shifted(g, p, walls, o.echo), walls, o.barrier.value, now);
    }
  }

  /** One observation keeps a distribution a distribution, and keeps mass on the cell
      the rival really moved to, unless it just walled that very cell. */
  lemma PerceivedKeeps(g: nat, p: Field, walls: set<Cell>, o: Sighting, was: Cell, now: Cell)
    requires g > 0 && Square(g, p) && Distribution(g, p) && At(g, p, was) > 0.0
    requires o.Fair(g) && Steps(g, walls, o.echo, was, now) && o.barrier != Some(now)
    ensures Distribution(g, Perceived(g, p, walls, o)) && At(g, Perceived(g, p, walls, o), now) > 0.0
  {
    PredictedKeeps(g, p, walls, o, was, now);
    if o.accepted {
      WeightedKeeps(g, Predicted(g, p, walls, o), walls, o, now);
    }
  }

  lemma ToldKeeps(g: nat, p: Field, region: Option<WeightedRegion>, now: Cell)
    requires g > 0 && Square(g, p) && Distribution(g, p) && At(g, p, now) > 0.0
    requires region.Some? ==> region.value.inside > 0.0 && region.value.outside > 0.0
    ensures Distribution(g, Told(g, p, region)) && At(g, Told(g, p, region), now) > 0.0
  {
    if region.Some? {
      ReweighedKeeps(g, p, RegionWeight(region.value.cells, region.value.inside, region.value.outside), now);
    }
  }

  lemma BoostedKeeps(g: nat, p: Field, pin: Option<Cell>, now: Cell)
    requires g > 0 && Square(g, p) && Distribution(g, p) && At(g, p, now) > 0.0
    ensures Distribution(g, Boosted(g, p, pin)) && At(g, Boosted(g, p, pin), now) > 0.0
  {
    if pin.Some? {
      ReweighedKeeps(g, p, PinWeight(pin.value), now);
    }
  }

  lemma WeightedKeeps(g: nat, p: Field, walls: set<Cell>, o: Sighting, now: Cell)
    requires g > 0 && Square(g, p) && Distribution(g, p) && At(g, p, now) > 0.0 && o.Fair(g) && Passable(g, walls, now)
    ensures Distribution(g, Weighted(g, p, walls, o)) && At(g, Weighted(g, p, walls, o), now) > 0.0
  {
    var smelled := Reweighed(g, p, ScentWeight(g, walls, o.evidence));
    ReweighedKeeps(g, p, ScentWeight(g, walls, o.evidence), now);
    ToldKeeps(g, smelled, o.region, now);
    BoostedKeeps(g, Told(g, smelled, o.region), o.plateau, now);
    BoostedKeeps(g, Boosted(g, Told(g, smelled, o.region), o.plateau), o.pin, now);
  }

  // --- whole games ------------------------------------------------------------

  function Posterior(g: nat, sightings: seq<Sighting>, walls: seq<set<Cell>>): (p: Field)
    requires g > 0 && |walls| == |sightings|
    requires forall k :: 0 <= k < |sightings| ==> Square(g, sightings[k].evidence)
    ensures Square(g, p)
  {
    if sightings == [] then Uniform(g)
    else
      var n := |sightings| - 1;
      Perceived(g, Posterior(g, sightings[..n], walls[..n]), walls[n], sightings[n])
  }

  function Before(start: Cell, cells: seq<Cell>, k: nat): Cell
    requires k <= |cells|
  {
    if k == 0 then start else cells[k - 1]
  }

  /** The rival's k-th turn: a real step, seen fairly and echoed truthfully. */
  ghost predicate SeenStep(g: nat, start: Cell, cells: seq<Cell>, walls: set<Cell>, o: Sighting, k: nat)
    requires k < |cells|
  {
    o.Fair(g) && o.barrier != Some(cells[k]) && Steps(g, walls, o.echo, Before(start, cells, k), cells[k])
  }

  ghost predicate Tracked(g: nat, start: Cell, cells: seq<Cell>, walls: seq<set<Cell>>, sightings: seq<Sighting>) {
    && |cells| == |walls| == |sightings| && InBounds(g, start)
    && forall k :: 0 <= k < |cells| ==> SeenStep(g, start, cells, walls[k], sightings[k], k)
  }

  lemma TrackedPrefix(g: nat, start: Cell, cells: seq<Cell>, walls: seq<set<Cell>>, sightings: seq<Sighting>, n: nat)
    requires Tracked(g, start, cells, walls, sightings) && n <= |cells|
    ensures Tracked(g, start, cells[..n], walls[..n], sightings[..n])
  {
    forall k | 0 <= k < n ensures SeenStep(g, start, cells[..n], walls[..n][k], sightings[..n][k], k) {
      assert SeenStep(g, start, cells, walls[k], sightings[k], k);
      assert Before(start, cells[..n], k) == Before(start, cells, k);
    }
  }

  lemma TrackedLengths(g: nat, start: Cell, cells: seq<Cell>, walls: seq<set<Cell>>, sightings: seq<Sighting>)
    requires Tracked(g, start, cells, walls, sightings)
    ensures g > 0 && |cells| == |walls| == |sightings|
    ensures forall k :: 0 <= k < |sightings| ==> Square(g, sightings[k].evidence)
  {
  }

  lemma NothingSeen(g: nat, start: Cell, cells: seq<Cell>, walls: seq<set<Cell>>, sightings: seq<Sighting>)
    requires Tracked(g, start, cells, walls, sightings) && cells == [] && g > 0
    ensures sightings == [] && walls == [] && Distribution(g, Posterior(g, sightings, walls))
    ensures At(g, Posterior(g, sightings, walls), Before(start, cells, 0)) > 0.0
  {
    hide Distribution, Total;
    UniformIsDistribution(g);
  }

  lemma PosteriorStep(g: nat, start: Cell, cells: seq<Cell>, walls: seq<set<Cell>>, sightings: seq<Sighting>)
    requires Tracked(g, start, cells, walls, sightings) && g > 0 && cells != []
    ensures var n := |cells| - 1;
      && |walls| == |sightings| == n + 1 && (forall k :: 0 <= k < |sightings| ==> Square(g, sightings[k].evidence))
      && Posterior(g, sightings, walls)
           == Perceived(g, Posterior(g, sightings[..n], walls[..n]), walls[n], sightings[n])
      && sightings[n].Fair(g) && sightings[n].barrier != Some(cells[n])
      && Steps(g, walls[n], sightings[n].echo, Before(start, cells, n), cells[n])
  {
    hide Perceived, Steps;
    var n := |cells| - 1;
    assert SeenStep(g, start, cells, walls[n], sightings[n], n);
  }

  lemma BeforePrefix(start: Cell, cells: seq<Cell>, n: nat)
    requires n <= |cells|
    ensures Before(start, cells[..n], n) == Before(start, cells, n)
  {
  }

  /** The belief never loses the rival: from the uniform prior, over any path and any
      evidence with truthful move echoes, it stays a distribution that keeps mass on
      the rival's true cell. */
  lemma {:induction false} NeverLoses(
    g: nat, start: Cell, cells: seq<Cell>, walls: seq<set<Cell>>, sightings: seq<Sighting>)
    requires Tracked(g, start, cells, walls, sightings)
    ensures g > 0
    ensures Distribution(g, Posterior(g, sightings, walls))
    ensures At(g, Posterior(g, sightings, walls), Before(start, cells, |cells|)) > 0.0
    decreases |cells|
  {
    hide Distribution, At, Perceived, Uniform, Tracked, SeenStep, Posterior;
    TrackedLengths(g, start, cells, walls, sightings);
    if cells == [] {
      NothingSeen(g, start, cells, walls, sightings);
    } else {
      var n := |cells| - 1;
      PosteriorStep(g, start, cells, walls, sightings);
      TrackedPrefix(g, start, cells, walls, sightings, n);
      NeverLoses(g, start, cells[..n], walls[..n], sightings[..n]);
      BeforePrefix(start, cells, n);
      PerceivedKeeps(g, Posterior(g, sightings[..n], walls[..n]), walls[n], sightings[n], Before(start, cells, n),
        cells[n]);
    }
  }

  // --- the map itself ---------------------------------------------------------

  method Pour(g: nat, f: Field, targets: seq<Cell>, share: real) returns (f': Field)
    requires Square(g, f)
    ensures Square(g, f') && f' == Shared(g, f, targets, share)
  {
    f' := f;
    for k := 0 to |targets|
      invariant Square(g, f') && f' == Shared(g, f, targets[..k], share)
    {
      assert targets[..k + 1][..k] == targets[..k];
      if InBounds(g, targets[k]) {
        f' := Put(g, f', targets[k], At(g, f', targets[k]) + share);
      }
    }
    assert targets[..|targets|] == targets;
  }

  /** The double loop of diffuse and of observe_motion over a fresh grid. */
  lemma PouredNone(g: nat, p: Field, flow: Flow, f: Field, row: int)
    requires Square(g, p) && Square(g, f)
    ensures PouredRow(g, p, flow, f, row, 0) == f
  {
  }

  lemma PouredNext(g: nat, p: Field, flow: Flow, f: Field, row: int, col: nat)
    requires Square(g, p) && Square(g, f) && 0 <= row < g && col < g
    ensures var before, mass, targets := PouredRow(g, p, flow, f, row, col), p[row][col], flow(Cell(row, col));
      PouredRow(g, p, flow, f, row, col + 1) ==
        if mass != 0.0 && targets != [] then Shared(g, before, targets, mass / |targets| as real) else before
  {
  }

  method MoveMass(g: nat, p: Field, flow: Flow) returns (f': Field)
    requires Square(g, p)
    ensures Square(g, f') && f' == Moved(g, p, flow, g)
  {
    hide Silence, Shared, Poured, PouredRow;
    f' := Silence(g);
    for row := 0 to g
      invariant Square(g, f') && f' == Moved(g, p, flow, row)
    {
      PouredNone(g, p, flow, f', row);
      for col := 0 to g
        invariant Square(g, f') && f' == PouredRow(g, p, flow, Moved(g, p, flow, row), row, col)
      {
        PouredNext(g, p, flow, Moved(g, p, flow, row), row, col);
        var mass, targets := p[row][col], flow(Cell(row, col));
        if mass != 0.0 && targets != [] {
          f' := Pour(g, f', targets, mass / |targets| as real);
        }
      }
    }
  }

  function BoostedAt(g: nat, f: Field, cells: seq<Cell>, c: Cell): real
    requires Square(g, f)
  {
    if c in cells then At(g, f, c) * ORIGIN_BOOST else At(g, f, c)
  }

  method BoostEach(g: nat, f: Field, cells: seq<Cell>) returns (f': Field)
    requires Square(g, f) && Distinct(cells) && forall i :: 0 <= i < |cells| ==> InBounds(g, cells[i])
    ensures Square(g, f') && forall c :: At(g, f', c) == BoostedAt(g, f, cells, c)
  {
    f' := f;
    for k := 0 to |cells|
      invariant Square(g, f') && forall c :: At(g, f', c) == BoostedAt(g, f, cells[..k], c)
    {
      assert cells[..k + 1] == cells[..k] + [cells[k]];
      f' := Put(g, f', cells[k], At(g, f', cells[k]) * ORIGIN_BOOST);
    }
    assert cells[..|cells|] == cells;
  }

  lemma OriginsFacts(g: nat, walls: set<Cell>, barrier: Cell)
    ensures var origins := StepsFrom(g, walls, barrier);
      && Distinct(origins) && barrier !in origins && forall i :: 0 <= i < |origins| ==> InBounds(g, origins[i])
  {
    hide StepsFrom;
    StepsFacts(g, walls, barrier);
    var origins, both := StepsFrom(g, walls, barrier), [barrier] + StepsFrom(g, walls, barrier);
    forall i, j | 0 <= i < j < |origins| ensures origins[i] != origins[j] {
      assert both[i + 1] != both[j + 1];
    }
    assert forall i :: 0 <= i < |origins| ==> origins[i] in origins;
  }

  class BeliefMap {
    const grid: nat
    var p: Field

    ghost predicate Valid()
      reads this
    {
      grid > 0 && Square(grid, p)
    }

    constructor (grid: nat)
      requires grid > 0
      ensures Valid() && this.grid == grid && p == Uniform(grid)
    {
      this.grid := grid;
      p := Uniform(grid);
    }

    method Normalize()
      requires Valid()
      modifies this
      ensures Valid() && p == Normalised(grid, old(p))
    {
      var total := Total(p);
      if total <= 0.0 {
        p := Uniform(grid);
        return;
      }
      p := Scaled(grid, p, total);
    }

    method Diffuse(walls: set<Cell>)
      requires Valid()
      modifies this
      ensures Valid() && p == Diffused(grid, old(p), walls)
    {
      p := MoveMass(grid, p, DiffuseFlow(grid, walls));
      Normalize();
    }

    method ObserveMotion(m: Move, walls: set<Cell>)
      requires Valid()
      modifies this
      ensures Valid() && p == Echoed(grid, old(p), walls, m)
    {
      if m == Stay {
        return;
      }
      p := MoveMass(grid, p, MotionFlow(grid, walls, m));
      Normalize();
    }

    /** Every cell times its weight, in place, then normalise. */
    method Reweigh(w: Cell -> real)
      requires Valid()
      modifies this
      ensures Valid() && p == Reweighed(grid, old(p), w)
    {
      ghost var was := p;
      for row := 0 to grid
        invariant Valid()
        invariant forall r, c :: 0 <= r < row && 0 <= c < grid ==> p[r][c] == was[r][c] * w(Cell(r, c))
        invariant forall r :: row <= r < grid ==> p[r] == was[r]
      {
        for col := 0 to grid
          invariant Valid()
          invariant forall r, c :: 0 <= r < row && 0 <= c < grid ==> p[r][c] == was[r][c] * w(Cell(r, c))
          invariant forall c :: 0 <= c < col ==> p[row][c] == was[row][c] * w(Cell(row, c))
          invariant forall c :: col <= c < grid ==> p[row][c] == was[row][c]
          invariant forall r :: row < r < grid ==> p[r] == was[r]
        {
          p := p[row := p[row][col := p[row][col] * w(Cell(row, col))]];
        }
      }
      FieldsEqual(grid, p, Weighed(grid, was, w));
      Normalize();
    }

    method ObserveScent(evidence: Field, walls: set<Cell>)
      requires Valid() && Square(grid, evidence)
      modifies this
      ensures Valid() && p == Reweighed(grid, old(p), ScentWeight(grid, walls, evidence))
    {
      Reweigh(ScentWeight(grid, walls, evidence));
    }

    method ObserveRegion(region: WeightedRegion)
      requires Valid()
      modifies this
      ensures Valid() && p == Reweighed(grid, old(p), RegionWeight(region.cells, region.inside, region.outside))
    {
      Reweigh(RegionWeight(region.cells, region.inside, region.outside));
    }

    /** observe_plateau and observe_claimed_cell: one cell boosted. */
    method ObservePin(pin: Cell)
      requires Valid() && InBounds(grid, pin)
      modifies this
      ensures Valid() && p == Reweighed(grid, old(p), PinWeight(pin))
    {
      ghost var was := p;
      p := Put(grid, p, pin, At(grid, p, pin) * ORIGIN_BOOST);
      AgreesWithWeight(grid, was, p, PinWeight(pin));
      Normalize();
    }

    method ObserveBarrier(barrier: Cell, walls: set<Cell>)
      requires Valid() && InBounds(grid, barrier)
      modifies this
      ensures Valid() && p == Located(grid, old(p), walls, barrier)
    {
      var origins := StepsFrom(grid, walls, barrier);
      if origins == [] {
        return;
      }
      ghost var was := p;
      OriginsFacts(grid, walls, barrier);
      p := Put(grid, p, barrier, 0.0);
      p := BoostEach(grid, p, origins);
      AgreesWithWeight(grid, was, p, OriginWeight(grid, walls, barrier));
      Normalize();
    }

    method Boost(pin: Option<Cell>)
      requires Valid() && (pin.Some? ==> InBounds(grid, pin.value))
      modifies this
      ensures Valid() && p == Boosted(grid, old(p), pin)
    {
      if pin.Some? {
        ObservePin(pin.value);
      }
    }
  }

  lemma AgreesWithWeight(g: nat, was: Field, p: Field, w: Cell -> real)
    requires Square(g, was) && Square(g, p)
    requires forall c :: InBounds(g, c) ==> At(g, p, c) == At(g, was, c) * w(c)
    ensures p == Weighed(g, was, w)
  {
    forall r, c | 0 <= r < g && 0 <= c < g ensures p[r][c] == Weighed(g, was, w)[r][c] {
      assert At(g, p, Cell(r, c)) == At(g, was, Cell(r, c)) * w(Cell(r, c));
    }
    FieldsEqual(g, p, Weighed(g, was, w));
  }

  lemma ZeroStays(g: nat, f: Field, c: Cell)
    requires g > 0 && Square(g, f) && InBounds(g, c) && At(g, f, c) == 0.0 && Total(f) > 0.0
    ensures At(g, Normalised(g, f), c) == 0.0
  {
    hide Total;
  }

  lemma PositiveStays(g: nat, f: Field, c: Cell)
    requires g > 0 && Square(g, f) && InBounds(g, c) && Total(f) <= 0.0
    ensures At(g, Normalised(g, f), c) > 0.0
  {
    UniformIsDistribution(g);
  }

  /** Why a walled rival is the exception: the observer of a wall on the rival's own
      cell leaves it no mass at all, unless the wall has no open neighbour or nothing
      would be left anywhere. */
  lemma WalledOwnCellLost(g: nat, p: Field, walls: set<Cell>, cell: Cell)
    requires g > 0 && Square(g, p) && InBounds(g, cell) && At(g, p, cell) > 0.0
    ensures At(g, Located(g, p, walls, cell), cell) == 0.0 <==>
      StepsFrom(g, walls, cell) != [] && Total(Weighed(g, p, OriginWeight(g, walls, cell))) > 0.0
  {
    hide StepsFrom, Total, Normalised, Uniform;
    var w := OriginWeight(g, walls, cell);
    assert Weighed(g, p, w)[cell.row][cell.col] == p[cell.row][cell.col] * w(Cell(cell.row, cell.col));
    assert w(Cell(cell.row, cell.col)) == 0.0;
    if Total(Weighed(g, p, w)) > 0.0 {
      ZeroStays(g, Weighed(g, p, w), cell);
    } else {
      PositiveStays(g, Weighed(g, p, w), cell);
    }
  }
}
