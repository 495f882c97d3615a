/** What one peer knows by itself: where it stands, which walls were declared, the
    trail it has left, the field it was last sent, and whose turn it is.  Nothing
    here holds the cell of the other side. */
module OwnState {
  import opened Primitives
  import opened Boards
  import opened Scent
  import opened Forensics

  /** The sparse form of a field on the wire: only cells reading above zero. */
  type Sparse = map<Cell, real>

  function Serialize(g: nat, f: Field): (m: Sparse)
    requires Square(g, f)
    ensures forall c :: c in m <==> InBounds(g, c) && f[c.row][c.col] > 0.0
    ensures forall c :: c in m ==> InBounds(g, c) && m[c] == f[c.row][c.col]
  {
    map c | c in Cells(g) && f[c.row][c.col] > 0.0 :: f[c.row][c.col]
  }

  function Dense(g: nat, m: Sparse): (f: Field)
    ensures Square(g, f)
    ensures forall r, c :: 0 <= r < g && 0 <= c < g ==>
      f[r][c] == if Cell(r, c) in m then m[Cell(r, c)] else 0.0
  {
    seq(g, r => seq(g, c => if Cell(r, c) in m then m[Cell(r, c)] else 0.0))
  }

  /** Absorbing what was serialized restores the field exactly when it holds no
      negative reading. */
  lemma SparseRoundTrip(g: nat, f: Field)
    requires Square(g, f)
    ensures Dense(g, Serialize(g, f)) == f <==> NonNegative(g, f)
  {
    var f' := Dense(g, Serialize(g, f));
    assert forall r, c :: 0 <= r < g && 0 <= c < g ==> f'[r][c] == if f[r][c] > 0.0 then f[r][c] else 0.0;
    if NonNegative(g, f) {
      FieldsEqual(g, f', f);
    }
  }

  lemma TrailNonNegative(g: nat, cells: seq<Cell>)
    ensures NonNegative(g, Trail(g, cells))
  {
    forall r, c | 0 <= r < g && 0 <= c < g ensures Trail(g, cells)[r][c] >= 0.0 {
      TrailSupport(g, cells, r, c);
    }
  }

  /** An honest trail crosses the wire unchanged. */
  lemma TrailCrosses(g: nat, cells: seq<Cell>)
    ensures Dense(g, Serialize(g, Trail(g, cells))) == Trail(g, cells)
  {
    TrailNonNegative(g, cells);
    SparseRoundTrip(g, Trail(g, cells));
  }

  /** Ideal injective stand-in for the SHA-256 of a canonical state. */
  datatype Digest =
    | SelfDigest(grid: nat, cell: Cell, walls: set<Cell>)
    | EndDigest(cop: Cell, thief: Cell, walls: set<Cell>, turns: nat, outcome: Outcome)

  datatype Own = Own(
    role: Role, grid: nat, rules: Rules, cell: Cell, walls: set<Cell>,
    turns: nat, outcome: Outcome, token: Role,
    boundary: seq<Cell>, scent: Field, rival: Field)
  {
    predicate Valid() {
      grid >= 2 && rules.Valid() && Square(grid, scent) && Square(grid, rival)
    }

    predicate MyTurn() { token == role }

    predicate SurvivalReached() { turns >= rules.threshold || turns >= rules.maxMoves }

    predicate Captured() { LawCapture(grid, walls, cell) }

    function Digest(): Digest { SelfDigest(grid, cell, walls) }
  }

  function FreshOwn(role: Role, g: nat, start: Cell, rules: Rules): Own {
    Own(role, g, rules, start, {}, 0, Ongoing, Thief, [], Silence(g), Silence(g))
  }

  /** My own move or barrier: the new state and the barrier cell, if one was placed. */
  function ApplyOwn(o: Own, a: Action): Result<(Own, Option<Cell>)> {
    if o.token != o.role then Err(GameRule)
    else match a
      case Wall(target) =>
        if o.role != Police then Err(GameRule)
        else if !LegalWall(o.grid, o.walls, o.rules, o.cell, target) then Err(IllegalBarrier)
        else Ok((o.(walls := o.walls + {target}, token := o.role.Rival()), Some(target)))
      case Go(m) =>
        if LegalMove(o.grid, o.walls, o.cell, m)
        then Ok((o.(cell := Applied(m, o.cell), token := o.role.Rival()), None))
        else Err(IllegalMove)
  }

  /** The rival's message is its half-turn: the token comes back. */
  function NoteHalfTurn(o: Own): Result<Own> {
    if o.token == o.role then Err(GameRule) else Ok(o.(token := o.role))
  }

  /** A declared barrier: duplicates are transport noise, the quota binds live. */
  function NoteBarrier(o: Own, c: Cell): Result<Own> {
    if !InBounds(o.grid, c) then Err(GameRule)
    else if c in o.walls then Ok(o)
    else if |o.walls| >= o.rules.maxBarriers then Err(RivalBreach)
    else Ok(o.(walls := o.walls + {c}))
  }

  function CloseTurn(o: Own): Own
    requires o.Valid()
  {
    o.(scent := Updated(o.grid, o.scent, o.cell), boundary := o.boundary + [o.cell], turns := o.turns + 1)
  }

  /** The rival's transmitted field, kept as received. */
  class ReceivedScent {
    const grid: nat
    var values: Field

    constructor (grid: nat)
      ensures this.grid == grid && values == Silence(grid)
    {
      this.grid := grid;
      values := Silence(grid);
    }

    method Absorb(m: Sparse)
      modifies this
      ensures values == Dense(grid, m)
    {
      var dense := Silence(grid);
      var keys := m.Keys;
      while keys != {}
        invariant keys <= m.Keys && Square(grid, dense)
        invariant forall r, c :: 0 <= r < grid && 0 <= c < grid ==>
          dense[r][c] == if Cell(r, c) in m.Keys - keys then m[Cell(r, c)] else 0.0
        decreases keys
      {
        var k :| k in keys;
        keys := keys - {k};
        if InBounds(grid, k) {
          dense := dense[k.row := dense[k.row][k.col := m[k]]];
        }
      }
      values := dense;
      FieldsEqual(grid, values, Dense(grid, m));
    }
  }

  class State {
    const role: Role
    const rules: Rules
    const board: Board
    const scent: ScentField
    const received: ReceivedScent
    var cell: Cell
    var turns: nat
    var outcome: Outcome
    var token: Role
    var boundary: seq<Cell>
    ghost const Repr: set<object>

    ghost predicate Valid()
      reads this, Repr
    {
      && Repr == {this, board, scent, received}
      && board.grid >= 2 && scent.grid == received.grid == board.grid
      && scent.Valid() && Square(board.grid, received.values) && rules.Valid()
    }

    ghost function View(): Own
      reads this, board, scent, received
    {
      Own(role, board.grid, rules, cell, board.walls, turns, outcome, token, boundary, scent.values, received.values)
    }

    constructor (role: Role, g: nat, start: Cell, rules: Rules)
      requires g >= 2 && InBounds(g, start) && rules.Valid()
      ensures Valid() && fresh(Repr) && View() == FreshOwn(role, g, start, rules)
    {
      this.role, this.rules, cell := role, rules, start;
      turns, outcome, token, boundary := 0, Ongoing, Thief, [];
      var b := new Board(g);
      var s := new ScentField(g);
      var f := new ReceivedScent(g);
      board, scent, received, Repr := b, s, f, {this, b, s, f};
    }

    method PlaceOwnWall(target: Cell) returns (placed: bool)
      requires Valid()
      modifies board
      ensures Valid() && placed == LegalWall(board.grid, old(board.walls), rules, cell, target)
      ensures board.walls == old(board.walls) + (if placed then {target} else {})
    {
      var r := board.PlaceWall(rules, cell, target);
      return r.Ok?;
    }

    method ApplyOwnAction(a: Action) returns (r: Result<Option<Cell>>)
      requires Valid()
      modifies this`cell, this`token, board
      ensures Valid()
      ensures match ApplyOwn(old(View()), a)
        case Err(e) => r == Err(e) && View() == old(View())
        case Ok((o, placed)) => r == Ok(placed) && View() == o
    {
      if token != role {
        return Err(GameRule);
      }
      match a
      case Wall(target) =>
        if role != Police {
          return Err(GameRule);
        }
        var placed := PlaceOwnWall(target);
        if !placed {
          assert board.walls == old(board.walls);
          return Err(IllegalBarrier);
        }
        token := role.Rival();
        return Ok(Some(target));
      case Go(m) =>
        var dest :- ApplyMove(board.grid, board.walls, cell, m);
        cell := dest;
        token := role.Rival();
        return Ok(None);
    }

    method NoteRivalHalfTurn() returns (r: Result<()>)
      requires Valid()
      modifies this
      ensures Valid()
      ensures match NoteHalfTurn(old(View()))
        case Err(e) => r == Err(e) && View() == old(View())
        case Ok(o) => r.Ok? && View() == o
    {
      if token == role {
        return Err(GameRule);
      }
      token := role;
      return Ok(());
    }

    method NoteRivalBarrier(c: Cell) returns (r: Result<()>)
      requires Valid()
      modifies board
      ensures Valid()
      ensures match NoteBarrier(old(View()), c)
        case Err(e) => r == Err(e) && View() == old(View())
        case Ok(o) => r.Ok? && View() == o
    {
      if !InBounds(board.grid, c) {
        return Err(GameRule);
      }
      if c in board.walls {
        return Ok(());
      }
      if |board.walls| >= rules.maxBarriers {
        return Err(RivalBreach);
      }
      var _ := board.AddBarrier(c);
      return Ok(());
    }

    method CloseFullTurn()
      requires Valid()
      modifies this, scent
      ensures Valid() && View() == CloseTurn(old(View()))
    {
      scent.Update(cell);
      boundary := boundary + [cell];
      turns := turns + 1;
    }
  }
}
