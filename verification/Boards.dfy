/** The board: bounds, permanent barriers, movement legality, the law of
    barriers and the win conditions.  The functions take the grid side and the
    set of walls; class Board keeps those two and is updated in place. */
module Boards {
  import opened Primitives

  datatype Rules = Rules(maxBarriers: nat, maxMoves: nat, threshold: nat) {
    /** The construction check of the rule set. */
    predicate Valid() { maxMoves >= 1 && threshold >= 1 }

    /** The clock at which an uncaptured thief has survived. */
    function Limit(): nat { if threshold < maxMoves then threshold else maxMoves }
  }

  predicate InBounds(g: nat, c: Cell) {
    0 <= c.row < g && 0 <= c.col < g
  }

  predicate Passable(g: nat, walls: set<Cell>, c: Cell) {
    InBounds(g, c) && c !in walls
  }

  predicate Surrounded(g: nat, walls: set<Cell>, c: Cell) {
    && !Passable(g, walls, Applied(N, c))
    && !Passable(g, walls, Applied(S, c))
    && !Passable(g, walls, Applied(E, c))
    && !Passable(g, walls, Applied(W, c))
  }

  /** A capture that the walls alone decide: a barrier on the cell, or no way out. */
  predicate LawCapture(g: nat, walls: set<Cell>, c: Cell) {
    c in walls || Surrounded(g, walls, c)
  }

  predicate LegalMove(g: nat, walls: set<Cell>, c: Cell, m: Move) {
    m == Stay || Passable(g, walls, Applied(m, c))
  }

  function ApplyMove(g: nat, walls: set<Cell>, c: Cell, m: Move): Result<Cell> {
    if LegalMove(g, walls, c, m) then Ok(Applied(m, c)) else Err(IllegalMove)
  }

  /** The law of barriers: quota, reach, bounds, no duplicate. */
  predicate LegalWall(g: nat, walls: set<Cell>, rules: Rules, cop: Cell, target: Cell) {
    && |walls| < rules.maxBarriers
    && Distance(cop, target) <= 1
    && Passable(g, walls, target)
  }

  function OutcomeAfterFullTurn(g: nat, walls: set<Cell>, rules: Rules, cop: Cell, thief: Cell, turns: nat): Outcome {
    if cop == thief || Surrounded(g, walls, thief) then Capture
    else if turns >= rules.threshold || turns >= rules.maxMoves then Survival
    else Ongoing
  }

  /** The walls decide exactly when they cover the cell or leave every cell beside it
      walled or off the board: then staying is the only move. */
  lemma WallsDecide(g: nat, walls: set<Cell>, c: Cell)
    ensures LawCapture(g, walls, c) <==>
      c in walls || forall d :: Distance(c, d) == 1 ==> !(0 <= d.row < g && 0 <= d.col < g && d !in walls)
    ensures Surrounded(g, walls, c) <==> forall m: Move :: LegalMove(g, walls, c, m) ==> m == Stay
  {
    assert Distance(c, Applied(N, c)) == Distance(c, Applied(S, c)) == 1;
    assert Distance(c, Applied(E, c)) == Distance(c, Applied(W, c)) == 1;
    assert LegalMove(g, walls, c, N) <==> Passable(g, walls, Applied(N, c));
    assert LegalMove(g, walls, c, S) <==> Passable(g, walls, Applied(S, c));
    assert LegalMove(g, walls, c, E) <==> Passable(g, walls, Applied(E, c));
    assert LegalMove(g, walls, c, W) <==> Passable(g, walls, Applied(W, c));
    forall d | Distance(c, d) == 1
      ensures d in {Applied(N, c), Applied(S, c), Applied(E, c), Applied(W, c)}
    {
    }
  }

  /** A move of one's own never ends in a pocket: the cell left behind is open. */
  lemma OwnMoveNeverSeals(g: nat, walls: set<Cell>, c: Cell, m: Move)
    requires InBounds(g, c) && !LawCapture(g, walls, c)
    requires LegalMove(g, walls, c, m)
    ensures InBounds(g, Applied(m, c)) && !LawCapture(g, walls, Applied(m, c))
  {
    var d := Applied(m, c);
    match m
    case N => assert Applied(S, d) == c;
    case S => assert Applied(N, d) == c;
    case E => assert Applied(W, d) == c;
    case W => assert Applied(E, d) == c;
    case Stay =>
  }

  /** A board without walls has no sealed cell, even in a corner. */
  lemma OpenBoardSealsNobody(g: nat, c: Cell)
    requires g >= 2 && InBounds(g, c)
    ensures !LawCapture(g, {}, c)
  {
    if c.row == 0 {
      assert Passable(g, {}, Applied(S, c));
    } else {
      assert Passable(g, {}, Applied(N, c));
    }
  }

  /** One legal step changes the distance to any cell by at most one. */
  lemma StepIsShort(m: Move, c: Cell, a: Cell)
    ensures Distance(Applied(m, c), a) <= Distance(c, a) + 1
  {
  }

  class Board {
    const grid: nat
    var walls: set<Cell>

    constructor (grid: nat)
      requires grid >= 2
      ensures this.grid == grid && walls == {}
    {
      this.grid := grid;
      walls := {};
    }

    method AddBarrier(c: Cell) returns (r: Result<()>)
      modifies this
      ensures r == if Passable(grid, old(walls), c) then Ok(()) else Err(IllegalBarrier)
      ensures walls == old(walls) + (if r.Ok? then {c} else {})
    {
      if !InBounds(grid, c) || c in walls {
        return Err(IllegalBarrier);
      }
      walls := walls + {c};
      return Ok(());
    }

    /** validate_barrier_placement followed by add_barrier. */
    method PlaceWall(rules: Rules, cop: Cell, target: Cell) returns (r: Result<()>)
      modifies this
      ensures r == if LegalWall(grid, old(walls), rules, cop, target) then Ok(()) else Err(IllegalBarrier)
      ensures walls == old(walls) + (if r.Ok? then {target} else {})
    {
      if |walls| >= rules.maxBarriers || Distance(cop, target) > 1 {
        return Err(IllegalBarrier);
      }
      r := AddBarrier(target);
    }
  }
}
