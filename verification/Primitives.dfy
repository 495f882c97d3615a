/** Core value types of the game: cells, moves, roles, outcomes, and the error
    results that stand for the exceptions the program raises. */
module Primitives {

  datatype Option<+T> = None | Some(value: T)

  /** The exceptions of the physics and of the wire. */
  datatype Error =
    IllegalMove | IllegalBarrier | GameRule | RivalBreach | Timeout | Flooded | Conflict | Diverged | Outdated
    | OffBoard

  datatype Result<+T> = Ok(value: T) | Err(error: Error) {
    predicate IsFailure() { Err? }

    function PropagateFailure<U>(): Result<U>
      requires Err?
    {
      Err(error)
    }

    function Extract(): T
      requires Ok?
    {
      value
    }
  }

  /** (row, col); rows grow downward, the origin is the top-left corner. */
  datatype Cell = Cell(row: int, col: int)

  datatype Move = N | S | E | W | Stay

  datatype Role = Police | Thief {
    function Rival(): Role { if Police? then Thief else Police }
  }

  datatype Outcome = Ongoing | Capture | Survival | TechnicalLoss

  /** What an agent does with its half-turn. */
  datatype Action = Go(move: Move) | Wall(cell: Cell)

  function Applied(m: Move, c: Cell): Cell {
    match m
    case N => Cell(c.row - 1, c.col)
    case S => Cell(c.row + 1, c.col)
    case E => Cell(c.row, c.col + 1)
    case W => Cell(c.row, c.col - 1)
    case Stay => c
  }

  /** No element twice. */
  predicate Distinct<T(==)>(s: seq<T>) {
    forall i, j :: 0 <= i < j < |s| ==> s[i] != s[j]
  }

  lemma DistinctConcat<T>(a: seq<T>, b: seq<T>)
    requires Distinct(a) && Distinct(b) && forall i, j :: 0 <= i < |a| && 0 <= j < |b| ==> a[i] != b[j]
    ensures Distinct(a + b)
  {
  }

  lemma HasMember<T>(s: seq<T>)
    requires s != []
    ensures exists x :: x in s
  {
    assert s[0] in s;
  }

  lemma NoMembers<T>(s: seq<T>)
    requires forall x :: x !in s
    ensures s == []
  {
    if s != [] {
      HasMember(s);
    }
  }

  /** A list without repetition is as long as the set of its members. */
  lemma {:induction false} DistinctSize<T>(s: seq<T>, a: set<T>)
    requires Distinct(s) && forall x :: x in s <==> x in a
    ensures |s| == |a|
  {
    if s == [] {
      assert a == {};
    } else {
      var front, last := s[..|s| - 1], s[|s| - 1];
      assert s == front + [last];
      assert last !in front;
      forall x ensures x in front <==> x in a - {last} {
        assert x in s <==> x in front || x == last;
      }
      DistinctSize(front, a - {last});
    }
  }

  function Abs(x: int): nat { if x < 0 then -x else x }

  function Distance(a: Cell, b: Cell): nat {
    Abs(a.row - b.row) + Abs(a.col - b.col)
  }
}
