/** Pheromone physics: the literal 5x5 kernel and the once-per-turn update law. */
module Scent {
  import opened Primitives

  type Field = seq<seq<real>>

  const CENTER: real := 0.9
  const KEEP: real := 0.9
  const RADIUS: int := 2

  const KERNEL: seq<seq<real>> := [
    [0.04, 0.14, 0.20, 0.14, 0.04],
    [0.14, 0.42, 0.62, 0.42, 0.14],
    [0.20, 0.62, 0.90, 0.62, 0.20],
    [0.14, 0.42, 0.62, 0.42, 0.14],
    [0.04, 0.14, 0.20, 0.14, 0.04]
  ]

  predicate Square(g: nat, f: Field) {
    |f| == g && forall r :: 0 <= r < g ==> |f[r]| == g
  }

  /** A cell lies under the 5x5 kernel centred on `e`. */
  predicate Near(c: Cell, e: Cell) {
    Abs(c.row - e.row) <= RADIUS && Abs(c.col - e.col) <= RADIUS
  }

  function Delta(c: Cell, e: Cell): (d: real)
    ensures 0.0 <= d <= CENTER
    ensures d > 0.0 <==> Near(c, e)
  {
    var kr := c.row - e.row + RADIUS;
    var kc := c.col - e.col + RADIUS;
    if 0 <= kr < 5 && 0 <= kc < 5 then
      assert kr == 0 || kr == 1 || kr == 2 || kr == 3 || kr == 4;
      assert kc == 0 || kc == 1 || kc == 2 || kc == 3 || kc == 4;
      KERNEL[kr][kc]
    else 0.0
  }

  /** min(center, max(0, x)) */
  function Clamp(x: real): (y: real)
    ensures 0.0 <= y <= CENTER
  {
    if x <= 0.0 then 0.0 else if x >= CENTER then CENTER else x
  }

  function Lawful(v: real, c: Cell, e: Cell): real {
    Clamp(KEEP * v + Delta(c, e))
  }

  /** Every intensity lies in [0, center]. */
  predicate InRange(g: nat, f: Field)
    requires Square(g, f)
  {
    forall r, c :: 0 <= r < g && 0 <= c < g ==> 0.0 <= f[r][c] <= CENTER
  }

  predicate NonNegative(g: nat, f: Field)
    requires Square(g, f)
  {
    forall r, c :: 0 <= r < g && 0 <= c < g ==> f[r][c] >= 0.0
  }

  function Silence(g: nat): (f: Field)
    ensures Square(g, f)
    ensures forall r, c :: 0 <= r < g && 0 <= c < g ==> f[r][c] == 0.0
  {
    seq(g, r => seq(g, c => 0.0))
  }

  /** One full-turn update: decay everything, add the emission, clamp. */
  function Updated(g: nat, f: Field, e: Cell): (f': Field)
    requires Square(g, f)
    ensures Square(g, f')
    ensures forall r, c :: 0 <= r < g && 0 <= c < g ==> f'[r][c] == Lawful(f[r][c], Cell(r, c), e)
  {
    seq(g, r requires 0 <= r < g => seq(g, c requires 0 <= c < g => Lawful(f[r][c], Cell(r, c), e)))
  }

  /** The field after emissions from `cells`, in that order, on top of `f`. */
  function TrailFrom(g: nat, f: Field, cells: seq<Cell>): (f': Field)
    requires Square(g, f)
    ensures Square(g, f')
  {
    if cells == [] then f else Updated(g, TrailFrom(g, f, cells[..|cells| - 1]), cells[|cells| - 1])
  }

  /** The field of an agent that has emitted from `cells`. */
  function Trail(g: nat, cells: seq<Cell>): (f: Field)
    ensures Square(g, f)
  {
    TrailFrom(g, Silence(g), cells)
  }

  lemma TrailSnoc(g: nat, cells: seq<Cell>, e: Cell)
    ensures Trail(g, cells + [e]) == Updated(g, Trail(g, cells), e)
  {
    assert (cells + [e])[..|cells|] == cells;
  }

  lemma FieldsEqual(g: nat, f: Field, f': Field)
    requires Square(g, f) && Square(g, f')
    requires forall r, c :: 0 <= r < g && 0 <= c < g ==> f[r][c] == f'[r][c]
    ensures f == f'
  {
    forall r | 0 <= r < g ensures f[r] == f'[r] {}
  }

  /** Intensities stay in [0, center] whatever the agent does, and a cell reads
      above zero exactly when some emission reached it. */
  lemma {:induction false} TrailSupport(g: nat, cells: seq<Cell>, r: int, c: int)
    requires 0 <= r < g && 0 <= c < g
    ensures 0.0 <= Trail(g, cells)[r][c] <= CENTER
    ensures Trail(g, cells)[r][c] > 0.0 <==> exists i :: 0 <= i < |cells| && Near(Cell(r, c), cells[i])
  {
    if cells != [] {
      var n := |cells| - 1;
      TrailSupport(g, cells[..n], r, c);
      var v := Trail(g, cells[..n])[r][c];
      assert Trail(g, cells)[r][c] == Lawful(v, Cell(r, c), cells[n]);
      if i :| 0 <= i < n && Near(Cell(r, c), cells[..n][i]) {
        assert Near(Cell(r, c), cells[i]);
      }
      if i :| 0 <= i < |cells| && Near(Cell(r, c), cells[i]) {
        assert i == n || Near(Cell(r, c), cells[..n][i]);
      }
    }
  }

  class ScentField {
    const grid: nat
    var values: Field

    ghost predicate Valid()
      reads this
    {
      Square(grid, values)
    }

    constructor (grid: nat)
      ensures this.grid == grid && values == Silence(grid) && Valid()
    {
      this.grid := grid;
      values := Silence(grid);
    }

    /** In-place update, cell by cell. */
    method Update(emitter: Cell)
      requires Valid()
      modifies this
      ensures Valid() && values == Updated(grid, old(values), emitter)
    {
      ghost var was := values;
      for r := 0 to grid
        invariant Square(grid, values)
        invariant forall i, c :: 0 <= i < r && 0 <= c < grid ==> values[i][c] == Lawful(was[i][c], Cell(i, c), emitter)
        invariant forall i :: r <= i < grid ==> values[i] == was[i]
      {
        for c := 0 to grid
          invariant Square(grid, values)
          invariant forall i, j :: 0 <= i < r && 0 <= j < grid ==>
              values[i][j] == Lawful(was[i][j], Cell(i, j), emitter)
          invariant forall j :: 0 <= j < c ==> values[r][j] == Lawful(was[r][j], Cell(r, j), emitter)
          invariant forall j :: c <= j < grid ==> values[r][j] == was[r][j]
          invariant forall i :: r < i < grid ==> values[i] == was[i]
        {
          values := values[r := values[r][c := Lawful(values[r][c], Cell(r, c), emitter)]];
        }
      }
      FieldsEqual(grid, values, Updated(grid, was, emitter));
    }
  }
}
