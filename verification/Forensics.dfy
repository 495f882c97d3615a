/** The checks that a received trail must pass: where it may read at the clamp, how far
    a walker can have carried it, and which single deposit leads from frame to frame. */
module Forensics {
  import opened Primitives
  import opened Boards
  import opened Scent

  const TOLERANCE: real := 0.001

  function Cells(g: nat): (s: set<Cell>)
    ensures forall c :: c in s <==> InBounds(g, c)
  {
    set r, c | 0 <= r < g && 0 <= c < g :: Cell(r, c)
  }

  /** decoded_reach(v) == 0: the age log(v / 0.9) / log(0.9) rounds to zero
      exactly when it is at most one half, that is when min(v, 0.9)^2 >= 0.9^3. */
  predicate Saturated(v: real) {
    v > 0.0 && (v >= CENTER || v * v >= 0.729)
  }

  function SaturatedCells(g: nat, f: Field, walls: set<Cell>): (s: set<Cell>)
    requires Square(g, f)
    ensures forall c :: c in s <==> InBounds(g, c) && c !in walls && Saturated(f[c.row][c.col])
  {
    set c | c in Cells(g) && c !in walls && Saturated(f[c.row][c.col])
  }

  function CredibleCells(g: nat, anchor: Option<Cell>, elapsed: nat): (s: set<Cell>)
    ensures forall c {:trigger c in s} :: c in s <==>
      InBounds(g, c) &&
      (anchor.None? || exists e :: InBounds(g, e) && Distance(e, anchor.value) <= elapsed && Near(c, e))
  {
    if anchor.None? then Cells(g)
    else
      var s := set c | c in Cells(g)
        && (exists e :: e in Cells(g) && Distance(e, anchor.value) <= elapsed && Near(c, e));
      assert forall c :: c in s ==> exists e :: InBounds(g, e) && Distance(e, anchor.value) <= elapsed && Near(c, e);
      s
  }

  predicate IncredibleSaturation(g: nat, f: Field, walls: set<Cell>, allowed: set<Cell>)
    requires Square(g, f)
  {
    SaturatedCells(g, f, walls) - allowed != {}
  }

  function Gap(x: real, y: real): real { if x < y then y - x else x - y }

  /** A single deposit at `e` turns `prev` into `cur`, up to the tolerance. */
  predicate Explains(g: nat, prev: Field, cur: Field, e: Cell) {
    && Square(g, prev) && Square(g, cur)
    && forall r, c :: 0 <= r < g && 0 <= c < g ==>
         Gap(Lawful(prev[r][c], Cell(r, c), e), cur[r][c]) <= TOLERANCE
  }

  function ExplainedBy(g: nat, prev: Field, cur: Field): Cell -> bool {
    e => Explains(g, prev, cur, e)
  }

  /** A residue that a sender floored to zero: its lawful next value is tiny. */
  predicate Floored(g: nat, prev: Field, cur: Field, eps: real, c: Cell) {
    && Square(g, prev) && Square(g, cur) && InBounds(g, c)
    && prev[c.row][c.col] > 0.0 && cur[c.row][c.col] == 0.0
    && 0.0 < KEEP * prev[c.row][c.col] <= eps
  }

  function FlooredAt(g: nat, prev: Field, cur: Field, eps: real): Cell -> bool {
    c => Floored(g, prev, cur, eps, c)
  }

  /** The cells of a row-major scan that satisfy `p`: rows below `rows`, then
      the first `n` cells of one row. */
  function ScanRow(p: Cell -> bool, row: int, n: nat): seq<Cell> {
    if n == 0 then []
    else ScanRow(p, row, n - 1) + (if p(Cell(row, n - 1)) then [Cell(row, n - 1)] else [])
  }

  function Scan(p: Cell -> bool, g: nat, rows: nat): seq<Cell> {
    if rows == 0 then [] else Scan(p, g, rows - 1) + ScanRow(p, rows - 1, g)
  }

  lemma {:induction false} ScanRowMembers(p: Cell -> bool, row: int, n: nat, c: Cell)
    ensures c in ScanRow(p, row, n) <==> c.row == row && 0 <= c.col < n && p(c)
  {
    if n > 0 {
      ScanRowMembers(p, row, n - 1, c);
    }
  }

  lemma InConcat<T>(a: seq<T>, b: seq<T>, x: T)
    ensures x in a + b <==> x in a || x in b
  {
  }

  /** The scan finds exactly the cells of the rows read that satisfy `p`. */
  lemma {:induction false} ScanMembers(p: Cell -> bool, g: nat, rows: nat, c: Cell)
    ensures c in Scan(p, g, rows) <==> 0 <= c.row < rows && 0 <= c.col < g && p(c)
  {
    hide ScanRow;
    if rows > 0 {
      ScanMembers(p, g, rows - 1, c);
      ScanRowMembers(p, rows - 1, g, c);
      InConcat(Scan(p, g, rows - 1), ScanRow(p, rows - 1, g), c);
    }
  }

  lemma {:induction false} ScanRowDistinct(p: Cell -> bool, row: int, n: nat)
    ensures Distinct(ScanRow(p, row, n))
  {
    if n > 0 {
      ScanRowDistinct(p, row, n - 1);
      var front := ScanRow(p, row, n - 1);
      forall i | 0 <= i < |front| ensures front[i] != Cell(row, n - 1) {
        ScanRowMembers(p, row, n - 1, front[i]);
      }
    }
  }

  lemma {:induction false} ScanDistinct(p: Cell -> bool, g: nat, rows: nat)
    ensures Distinct(Scan(p, g, rows))
  {
    hide ScanRow;
    if rows > 0 {
      ScanDistinct(p, g, rows - 1);
      ScanRowDistinct(p, rows - 1, g);
      var front, row := Scan(p, g, rows - 1), ScanRow(p, rows - 1, g);
      forall i, j | 0 <= i < |front| && 0 <= j < |row| ensures front[i] != row[j] {
        ScanMembers(p, g, rows - 1, front[i]);
        ScanRowMembers(p, rows - 1, g, row[j]);
      }
      DistinctConcat(front, row);
    }
  }

  /** transition_emitters: every emitter the update law admits, row by row. */
  function Emitters(g: nat, prev: Field, cur: Field): (s: seq<Cell>)
    ensures forall e :: e in s <==> InBounds(g, e) && Explains(g, prev, cur, e)
  {
    var p := ExplainedBy(g, prev, cur);
    assert forall e :: e in Scan(p, g, g) <==> InBounds(g, e) && p(e) by {
      forall e ensures e in Scan(p, g, g) <==> InBounds(g, e) && p(e) { ScanMembers(p, g, g, e); }
    }
    Scan(p, g, g)
  }

  method TransitionEmitters(g: nat, prev: Field, cur: Field) returns (candidates: seq<Cell>)
    ensures candidates == Emitters(g, prev, cur)
  {
    candidates := [];
    ghost var p := ExplainedBy(g, prev, cur);
    for r := 0 to g
      invariant candidates == Scan(p, g, r)
    {
      for c := 0 to g
        invariant candidates == Scan(p, g, r) + ScanRow(p, r, c)
      {
        if Explains(g, prev, cur, Cell(r, c)) {
          candidates := candidates + [Cell(r, c)];
        }
      }
    }
  }

  function Restored(g: nat, prev: Field, cur: Field, eps: real): (f: Field)
    requires Square(g, prev) && Square(g, cur)
    ensures Square(g, f)
    ensures forall r, c :: 0 <= r < g && 0 <= c < g ==>
      f[r][c] == if Floored(g, prev, cur, eps, Cell(r, c)) then KEEP * prev[r][c] else cur[r][c]
  {
    seq(g, r requires 0 <= r < g => seq(g, c requires 0 <= c < g =>
      if Floored(g, prev, cur, eps, Cell(r, c)) then KEEP * prev[r][c] else cur[r][c]))
  }

  /** (emitters, floored cells) of one frame transition. */
  function Solve(g: nat, prev: Field, cur: Field, eps: real): (seq<Cell>, seq<Cell>)
    requires Square(g, prev) && Square(g, cur)
  {
    if Emitters(g, prev, cur) != [] then (Emitters(g, prev, cur), [])
    else
      var floored := Scan(FlooredAt(g, prev, cur, eps), g, g);
      if floored == [] then ([], [])
      else
        var emitters := Emitters(g, prev, Restored(g, prev, cur, eps));
        if emitters == [] then ([], []) else (emitters, floored)
  }

  /** A row-major list comprehension over the board. */
  method Collect(p: Cell -> bool, g: nat) returns (found: seq<Cell>)
    ensures found == Scan(p, g, g)
  {
    found := [];
    for r := 0 to g
      invariant found == Scan(p, g, r)
    {
      for c := 0 to g
        invariant found == Scan(p, g, r) + ScanRow(p, r, c)
      {
        if p(Cell(r, c)) {
          found := found + [Cell(r, c)];
        }
      }
    }
  }

  method Restore(g: nat, prev: Field, cur: Field, floored: seq<Cell>) returns (patched: Field)
    requires Square(g, prev) && Square(g, cur)
    requires forall c :: c in floored ==> InBounds(g, c)
    ensures Square(g, patched)
    ensures forall r, c :: 0 <= r < g && 0 <= c < g ==>
      patched[r][c] == if Cell(r, c) in floored then KEEP * prev[r][c] else cur[r][c]
  {
    patched := cur;
    for k := 0 to |floored|
      invariant Square(g, patched)
      invariant forall r, c :: 0 <= r < g && 0 <= c < g ==>
        patched[r][c] == if Cell(r, c) in floored[..k] then KEEP * prev[r][c] else cur[r][c]
    {
      var f := floored[k];
      assert f in floored;
      patched := patched[f.row := patched[f.row][f.col := KEEP * prev[f.row][f.col]]];
      assert floored[..k + 1] == floored[..k] + [f];
    }
    assert floored[..|floored|] == floored;
  }

  lemma RestoredUnique(g: nat, prev: Field, cur: Field, eps: real, floored: seq<Cell>, patched: Field)
    requires Square(g, prev) && Square(g, cur) && Square(g, patched)
    requires floored == Scan(FlooredAt(g, prev, cur, eps), g, g)
    requires forall r, c :: 0 <= r < g && 0 <= c < g ==>
      patched[r][c] == if Cell(r, c) in floored then KEEP * prev[r][c] else cur[r][c]
    ensures patched == Restored(g, prev, cur, eps)
  {
    forall r, c | 0 <= r < g && 0 <= c < g
      ensures patched[r][c] == Restored(g, prev, cur, eps)[r][c]
    {
      ScanMembers(FlooredAt(g, prev, cur, eps), g, g, Cell(r, c));
    }
    FieldsEqual(g, patched, Restored(g, prev, cur, eps));
  }

  method SolveWithTolerance(g: nat, prev: Field, cur: Field, eps: real)
    returns (emitters: seq<Cell>, floored: seq<Cell>)
    requires Square(g, prev) && Square(g, cur)
    ensures (emitters, floored) == Solve(g, prev, cur, eps)
  {
    emitters := TransitionEmitters(g, prev, cur);
    if emitters != [] {
      return emitters, [];
    }
    floored := Collect(FlooredAt(g, prev, cur, eps), g);
    if floored == [] {
      return [], [];
    }
    forall c | c in floored ensures InBounds(g, c) {
      ScanMembers(FlooredAt(g, prev, cur, eps), g, g, c);
    }
    var patched := Restore(g, prev, cur, floored);
    RestoredUnique(g, prev, cur, eps, floored, patched);
    emitters := TransitionEmitters(g, prev, patched);
    if emitters == [] {
      floored := [];
    }
  }

  /** A transition that some deposit explains as it stands needs no tolerance. */
  lemma SolvedDirectly(g: nat, prev: Field, cur: Field, eps: real, e: Cell)
    requires Square(g, prev) && Square(g, cur) && e in Emitters(g, prev, cur)
    ensures Solve(g, prev, cur, eps) == (Emitters(g, prev, cur), []) && Emitters(g, prev, cur) != []
  {
  }

  /** An honest update is always explained by its own emitter. */
  lemma HonestUpdateExplained(g: nat, f: Field, e: Cell)
    requires Square(g, f) && InBounds(g, e)
    ensures e in Emitters(g, f, Updated(g, f, e))
  {
    assert Explains(g, f, Updated(g, f, e), e);
  }

  /** Every position held so far lies within one step per turn of the start. */
  predicate Walk(g: nat, start: Cell, cells: seq<Cell>) {
    forall i :: 0 <= i < |cells| ==> InBounds(g, cells[i]) && Distance(cells[i], start) <= i + 1
  }

  /** The reach envelope never refuses an honest trail: everything above zero,
      so in particular everything saturated, is credible from the agreed start. */
  lemma HonestTrailCredible(g: nat, start: Cell, cells: seq<Cell>, walls: set<Cell>)
    requires Walk(g, start, cells)
    ensures forall c :: InBounds(g, c) && Trail(g, cells)[c.row][c.col] > 0.0 ==>
              c in CredibleCells(g, Some(start), |cells|)
    ensures !IncredibleSaturation(g, Trail(g, cells), walls, CredibleCells(g, Some(start), |cells|))
  {
    forall c | InBounds(g, c) && Trail(g, cells)[c.row][c.col] > 0.0
      ensures c in CredibleCells(g, Some(start), |cells|)
    {
      TrailSupport(g, cells, c.row, c.col);
      var i :| 0 <= i < |cells| && Near(Cell(c.row, c.col), cells[i]);
      var e := cells[i];
      assert InBounds(g, e) && Distance(e, start) <= |cells| && Near(c, e);
    }
  }
}
