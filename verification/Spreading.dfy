/** Where belief goes when the rival has moved: exactly which cells feed which. */
module Spreading {
  import opened Primitives
  import opened Boards
  import opened Scent
  import opened Belief

  // --- what reaches a cell ----------------------------------------------------------

  /** What every cell of the board adds at `d`. */
  function Inflows(g: nat, p: Field, flow: Flow, d: Cell): (f: Field)
    requires Square(g, p)
    ensures Square(g, f)
    ensures forall r, c :: 0 <= r < g && 0 <= c < g ==> f[r][c] == Inflow(g, p, flow, Cell(r, c), d)
  {
    seq(g, r requires 0 <= r < g => seq(g, c requires 0 <= c < g => Inflow(g, p, flow, Cell(r, c), d)))
  }

  lemma {:induction false} RowGathers(g: nat, p: Field, flow: Flow, f: Field, row: int, n: nat, d: Cell)
    requires Square(g, p) && Square(g, f) && Proper(g, flow) && 0 <= row < g && n <= g
    ensures At(g, PouredRow(g, p, flow, f, row, n), d) == At(g, f, d) + RowSum(Inflows(g, p, flow, d)[row][..n])
  {
    var inflows := Inflows(g, p, flow, d)[row];
    if n > 0 {
      RowGathers(g, p, flow, f, row, n - 1, d);
      PouredAt(g, p, flow, PouredRow(g, p, flow, f, row, n - 1), Cell(row, n - 1), d);
      assert inflows[..n][..n - 1] == inflows[..n - 1];
    }
  }

  /** The mass of a cell afterwards is all that flows in. */
  lemma {:induction false} MovedGathers(g: nat, p: Field, flow: Flow, rows: nat, d: Cell)
    requires Square(g, p) && Proper(g, flow) && rows <= g
    ensures At(g, Moved(g, p, flow, rows), d) == Total(Inflows(g, p, flow, d)[..rows])
  {
    hide Proper, Poured, RowSum, PouredRow, Inflow, Total;
    var inflows := Inflows(g, p, flow, d);
    if rows == 0 {
      TotalNothing(inflows);
    } else {
      MovedGathers(g, p, flow, rows - 1, d);
      RowGathers(g, p, flow, Moved(g, p, flow, rows - 1), rows - 1, g, d);
      TotalOneMore(inflows, rows);
      assert inflows[rows - 1][..g] == inflows[rows - 1];
    }
  }

  function SumOver(g: nat, f: Field, cells: seq<Cell>): real
    requires Square(g, f)
  {
    if cells == [] then 0.0 else SumOver(g, f, cells[..|cells| - 1]) + At(g, f, cells[|cells| - 1])
  }

  lemma {:induction false} SumElsewhere(g: nat, f: Field, cells: seq<Cell>, c: Cell, x: real)
    requires Square(g, f) && InBounds(g, c) && c !in cells
    ensures SumOver(g, Put(g, f, c, x), cells) == SumOver(g, f, cells)
  {
    if cells != [] {
      SumElsewhere(g, f, cells[..|cells| - 1], c, x);
    }
  }

  lemma AllZero(g: nat, f: Field)
    requires Square(g, f) && forall c :: InBounds(g, c) ==> At(g, f, c) == 0.0
    ensures Total(f) == 0.0
  {
    forall r, c | 0 <= r < g && 0 <= c < g ensures f[r][c] == 0.0 {
      assert At(g, f, Cell(r, c)) == 0.0;
    }
    FieldsEqual(g, f, Silence(g));
    SilenceTotal(g, g);
    assert Silence(g)[..g] == Silence(g);
  }

  /** A field that is zero off a list of cells adds up over the list. */
  lemma {:induction false} SparseTotal(g: nat, f: Field, cells: seq<Cell>)
    requires Square(g, f) && Distinct(cells) && (forall c :: c in cells ==> InBounds(g, c))
    requires forall c :: InBounds(g, c) && c !in cells ==> At(g, f, c) == 0.0
    ensures Total(f) == SumOver(g, f, cells)
    decreases cells
  {
    hide Total, Put;
    if cells == [] {
      AllZero(g, f);
    } else {
      var n := |cells| - 1;
      var front, last := cells[..n], cells[n];
      assert last !in front;
      assert cells == front + [last];
      var f' := Put(g, f, last, 0.0);
      forall c | InBounds(g, c) && c !in front ensures At(g, f', c) == 0.0 {}
      SparseTotal(g, f', front);
      TotalPut(g, f, last, 0.0);
      SumElsewhere(g, f, front, last, 0.0);
    }
  }

  // --- one unnamed step ---------------------------------------------------------------

  /** How many open cells lie beside `c`. */
  function OpenBeside(g: nat, walls: set<Cell>, c: Cell): (n: nat)
  {
    (if Passable(g, walls, Cell(c.row - 1, c.col)) then 1 else 0)
    + (if Passable(g, walls, Cell(c.row + 1, c.col)) then 1 else 0)
    + (if Passable(g, walls, Cell(c.row, c.col + 1)) then 1 else 0)
    + (if Passable(g, walls, Cell(c.row, c.col - 1)) then 1 else 0)
  }

  /** What an open cell keeps, and gives to each open neighbour. */
  function Share(g: nat, walls: set<Cell>, p: Field, c: Cell): real
    requires Square(g, p)
  {
    if Passable(g, walls, c) then p[c.row][c.col] / (1 + OpenBeside(g, walls, c)) as real else 0.0
  }

  function Gathered(g: nat, walls: set<Cell>, p: Field, d: Cell): real
    requires Square(g, p)
  {
    Share(g, walls, p, d) + Share(g, walls, p, Cell(d.row - 1, d.col)) + Share(g, walls, p, Cell(d.row + 1, d.col))
    + Share(g, walls, p, Cell(d.row, d.col + 1)) + Share(g, walls, p, Cell(d.row, d.col - 1))
  }

  /** After one unnamed step each open cell holds its own share and those of the cells
      beside it, in proportion, and no barrier holds anything. */
  predicate Spread(g: nat, walls: set<Cell>, p: Field, p': Field, total: real)
    requires Square(g, p) && Square(g, p')
  {
    forall r, c :: 0 <= r < g && 0 <= c < g ==>
      p'[r][c] * total == if Cell(r, c) in walls then 0.0 else Gathered(g, walls, p, Cell(r, c))
  }

  lemma StepsCount(g: nat, walls: set<Cell>, c: Cell)
    ensures |StepsFrom(g, walls, c)| == OpenBeside(g, walls, c)
  {
    hide Passable;
  }

  lemma DiffusionInflow(g: nat, p: Field, walls: set<Cell>, c: Cell, d: Cell)
    requires Square(g, p) && InBounds(g, c) && InBounds(g, d)
    ensures Inflow(g, p, DiffuseFlow(g, walls), c, d) ==
      if d !in walls && Distance(c, d) <= 1 then Share(g, walls, p, c) else 0.0
  {
    hide StepsFrom, Distance;
    StepsFacts(g, walls, c);
    StepsCount(g, walls, c);
    NoDistance(c, d);
    assert |[c] + StepsFrom(g, walls, c)| == 1 + OpenBeside(g, walls, c);
  }

  lemma NoDistance(c: Cell, d: Cell)
    ensures Distance(c, d) == 0 <==> c == d
  {
  }

  /** The cells a step away, as far as they are on the board, the cell itself first. */
  function Around(g: nat, d: Cell): seq<Cell> { [d] + StepsFrom(g, {}, d) }

  lemma AroundFacts(g: nat, d: Cell)
    requires InBounds(g, d)
    ensures Distinct(Around(g, d)) && forall c :: c in Around(g, d) <==> InBounds(g, c) && Distance(c, d) <= 1
  {
    hide StepsFrom, Distance, Distinct;
    StepsFacts(g, {}, d);
    forall c ensures c in Around(g, d) <==> InBounds(g, c) && Distance(c, d) <= 1 {
      NoDistance(c, d);
      BothWays(c, d);
    }
  }

  lemma BothWays(c: Cell, d: Cell)
    ensures Distance(c, d) == Distance(d, c)
  {
  }

  lemma SumAround(g: nat, f: Field, d: Cell)
    requires Square(g, f) && InBounds(g, d)
    ensures SumOver(g, f, Around(g, d)) ==
      At(g, f, d) + At(g, f, Cell(d.row - 1, d.col)) + At(g, f, Cell(d.row + 1, d.col))
      + At(g, f, Cell(d.row, d.col + 1)) + At(g, f, Cell(d.row, d.col - 1))
  {
    var n, s, e, w := Applied(N, d), Applied(S, d), Applied(E, d), Applied(W, d);
    SumOne(g, f, [], d);
    SumMaybe(g, f, [d], n);
    SumMaybe(g, f, [d] + IfPassable(g, {}, n), s);
    SumMaybe(g, f, [d] + IfPassable(g, {}, n) + IfPassable(g, {}, s), e);
    SumMaybe(g, f, [d] + IfPassable(g, {}, n) + IfPassable(g, {}, s) + IfPassable(g, {}, e), w);
    assert Around(g, d) == [d] + IfPassable(g, {}, n) + IfPassable(g, {}, s) + IfPassable(g, {}, e)
                           + IfPassable(g, {}, w);
  }

  lemma SumOne(g: nat, f: Field, cells: seq<Cell>, c: Cell)
    requires Square(g, f)
    ensures SumOver(g, f, cells + [c]) == SumOver(g, f, cells) + At(g, f, c)
  {
    assert (cells + [c])[..|cells|] == cells;
  }

  lemma SumMaybe(g: nat, f: Field, cells: seq<Cell>, c: Cell)
    requires Square(g, f)
    ensures SumOver(g, f, cells + IfPassable(g, {}, c)) == SumOver(g, f, cells) + At(g, f, c)
  {
    if InBounds(g, c) {
      SumOne(g, f, cells, c);
    } else {
      assert cells + [] == cells;
    }
  }

  lemma DiffusionAt(g: nat, p: Field, walls: set<Cell>, d: Cell)
    requires g > 0 && Square(g, p) && InBounds(g, d)
    ensures At(g, Moved(g, p, DiffuseFlow(g, walls), g), d) ==
      if d in walls then 0.0 else Gathered(g, walls, p, d)
  {
    hide StepsFrom, Distance, Around, Moved, DiffuseFlow, Inflow, Total, Proper, SumOver, OpenBeside;
    var flow := DiffuseFlow(g, walls);
    var inflows := Inflows(g, p, flow, d);
    DiffusionIsProper(g, walls);
    MovedGathers(g, p, flow, g, d);
    assert inflows[..g] == inflows;
    AroundFacts(g, d);
    forall c | InBounds(g, c)
      ensures At(g, inflows, c) == if d !in walls && Distance(c, d) <= 1 then Share(g, walls, p, c) else 0.0
    {
      assert c == Cell(c.row, c.col);
      DiffusionInflow(g, p, walls, c, d);
    }
    SparseTotal(g, inflows, Around(g, d));
    SumAround(g, inflows, d);
    NextDoorDistance(d);
  }

  lemma NextDoorDistance(d: Cell)
    ensures Distance(d, d) == 0
    ensures Distance(Cell(d.row - 1, d.col), d) == Distance(Cell(d.row + 1, d.col), d) == 1
    ensures Distance(Cell(d.row, d.col + 1), d) == Distance(Cell(d.row, d.col - 1), d) == 1
  {
  }

  lemma Unscaled(x: real, total: real)
    requires total > 0.0
    ensures x / total * total == x
  {
  }

  lemma NormalisedTimes(g: nat, f: Field, c: Cell)
    requires g > 0 && Square(g, f) && Total(f) > 0.0 && InBounds(g, c)
    ensures Normalised(g, f)[c.row][c.col] * Total(f) == f[c.row][c.col]
  {
    hide Total;
    Unscaled(f[c.row][c.col], Total(f));
  }

  /** Diffusion: what is not on a barrier is spread in equal shares over each cell and its
      open neighbours. */
  lemma DiffusionSpreads(g: nat, p: Field, walls: set<Cell>)
    requires g > 0 && Square(g, p) && Total(OffBarrier(g, p, walls)) > 0.0
    ensures Spread(g, walls, p, Diffused(g, p, walls), Total(OffBarrier(g, p, walls)))
  {
    hide Total, Moved, DiffuseFlow, Normalised, Gathered;
    DiffusionConserves(g, p, walls);
    forall r, c | 0 <= r < g && 0 <= c < g
      ensures Diffused(g, p, walls)[r][c] * Total(OffBarrier(g, p, walls)) ==
        if Cell(r, c) in walls then 0.0 else Gathered(g, walls, p, Cell(r, c))
    {
      DiffusionAt(g, p, walls, Cell(r, c));
      NormalisedTimes(g, Moved(g, p, DiffuseFlow(g, walls), g), Cell(r, c));
    }
  }

  // --- one named step -----------------------------------------------------------------

  /** The cell from which a step `m` leads to `c`. */
  function Behind(m: Move, c: Cell): Cell {
    match m
    case N => Cell(c.row + 1, c.col)
    case S => Cell(c.row - 1, c.col)
    case E => Cell(c.row, c.col - 1)
    case W => Cell(c.row, c.col + 1)
    case Stay => c
  }

  /** After a named step a cell holds what stood behind it, if it is open, and what it
      held itself if the step from it is blocked. */
  function Pushed(g: nat, walls: set<Cell>, m: Move, p: Field, c: Cell): real
    requires Square(g, p)
  {
    (if Passable(g, walls, c) && InBounds(g, Behind(m, c)) then p[Behind(m, c).row][Behind(m, c).col] else 0.0)
    + (if InBounds(g, c) && !Passable(g, walls, Applied(m, c)) then p[c.row][c.col] else 0.0)
  }

  predicate Translated(g: nat, walls: set<Cell>, m: Move, p: Field, p': Field, total: real)
    requires Square(g, p) && Square(g, p')
  {
    forall r, c :: 0 <= r < g && 0 <= c < g ==> p'[r][c] * total == Pushed(g, walls, m, p, Cell(r, c))
  }

  lemma MotionInflow(g: nat, p: Field, walls: set<Cell>, m: Move, c: Cell, d: Cell)
    requires Square(g, p)
    ensures Inflow(g, p, MotionFlow(g, walls, m), c, d) ==
      if d == (if Passable(g, walls, Applied(m, c)) then Applied(m, c) else c) then At(g, p, c) else 0.0
  {
    assert |MotionFlow(g, walls, m)(c)| == 1;
  }

  lemma BehindFacts(m: Move, c: Cell, d: Cell)
    requires m != Stay
    ensures Behind(m, d) != d && (Applied(m, c) == d <==> c == Behind(m, d))
  {
  }

  lemma MotionAt(g: nat, p: Field, walls: set<Cell>, m: Move, d: Cell)
    requires g > 0 && Square(g, p) && InBounds(g, d) && m != Stay
    ensures At(g, Moved(g, p, MotionFlow(g, walls, m), g), d) == Pushed(g, walls, m, p, d)
  {
    hide Moved, MotionFlow, Inflow, Total, Proper, SumOver, Applied, Behind;
    var flow, back := MotionFlow(g, walls, m), Behind(m, d);
    var inflows := Inflows(g, p, flow, d);
    MotionIsProper(g, walls, m);
    MovedGathers(g, p, flow, g, d);
    assert inflows[..g] == inflows;
    forall c | InBounds(g, c)
      ensures At(g, inflows, c) ==
        if d == (if Passable(g, walls, Applied(m, c)) then Applied(m, c) else c) then At(g, p, c) else 0.0
    {
      assert c == Cell(c.row, c.col);
      MotionInflow(g, p, walls, m, c, d);
    }
    forall c { BehindFacts(m, c, d); }
    var sources := [d] + IfPassable(g, {}, back);
    SparseTotal(g, inflows, sources);
    SumMaybe(g, inflows, [d], back);
    JustOne(g, inflows, d);
  }

  lemma JustOne(g: nat, f: Field, d: Cell)
    requires Square(g, f)
    ensures SumOver(g, f, [d]) == At(g, f, d)
  {
  }

  /** A named step translates the belief; what is blocked stays put. */
  lemma MotionTranslates(g: nat, p: Field, walls: set<Cell>, m: Move)
    requires g > 0 && Square(g, p) && m != Stay && Total(p) > 0.0
    ensures Translated(g, walls, m, p, Echoed(g, p, walls, m), Total(p))
  {
    hide Total, Moved, MotionFlow, Normalised, Pushed;
    MotionConserves(g, p, walls, m);
    forall r, c | 0 <= r < g && 0 <= c < g
      ensures Echoed(g, p, walls, m)[r][c] * Total(p) == Pushed(g, walls, m, p, Cell(r, c))
    {
      MotionAt(g, p, walls, m, Cell(r, c));
      NormalisedTimes(g, Moved(g, p, MotionFlow(g, walls, m), g), Cell(r, c));
    }
  }

  // --- what a refused frame leaves ----------------------------------------------------

  /** A refused frame tells the belief nothing: it moves as the hint names, or by one
      unnamed step, and no evidence enters it. */
  lemma RefusedFrameMovesOnly(g: nat, p: Field, walls: set<Cell>, o: Sighting)
    requires g > 0 && Square(g, p) && Square(g, o.evidence) && !o.accepted && o.barrier == None
    requires Total(p) > 0.0 && Total(OffBarrier(g, p, walls)) > 0.0
    ensures match o.echo
      case None => Spread(g, walls, p, Perceived(g, p, walls, o), Total(OffBarrier(g, p, walls)))
      case Some(Stay) => Perceived(g, p, walls, o) == p
      case Some(m) => Translated(g, walls, m, p, Perceived(g, p, walls, o), Total(p))
  {
    hide Total, Spread, Translated;
    match o.echo
    case None => DiffusionSpreads(g, p, walls);
    case Some(m) => if m != Stay { MotionTranslates(g, p, walls, m); }
  }
}
