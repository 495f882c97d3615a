/** The single-process engine: the cop acts (a move or a barrier), the thief moves,
    the full turn closes. */
module Engine {
  import opened Primitives
  import opened Boards
  import opened Scent

  datatype Game = Game(
    grid: nat, rules: Rules, walls: set<Cell>, cop: Cell, thief: Cell,
    turns: nat, outcome: Outcome, next: Role)

  function NewGame(g: nat, cop: Cell, thief: Cell, rules: Rules): Game {
    Game(g, rules, {}, cop, thief, 0, Ongoing, Police)
  }

  predicate MidRoundCapture(e: Game) { e.cop == e.thief || Surrounded(e.grid, e.walls, e.thief) }

  function CheckCaptures(e: Game): Game {
    if MidRoundCapture(e) then e.(outcome := Capture) else e
  }

  function PoliceAct(e: Game, a: Action): Result<Game> {
    if e.outcome != Ongoing || e.next != Police then Err(GameRule)
    else match a
      case Go(m) =>
        if !LegalMove(e.grid, e.walls, e.cop, m) then Err(IllegalMove)
        else Ok(CheckCaptures(e.(cop := Applied(m, e.cop), next := Thief)))
      case Wall(c) =>
        if !LegalWall(e.grid, e.walls, e.rules, e.cop, c) then Err(IllegalBarrier)
        else if c == e.thief then Ok(e.(walls := e.walls + {c}, next := Thief, outcome := Capture))
        else Ok(CheckCaptures(e.(walls := e.walls + {c}, next := Thief)))
  }

  function CloseTurn(e: Game): Game {
    e.(turns := e.turns + 1, outcome := OutcomeAfterFullTurn(e.grid, e.walls, e.rules, e.cop, e.thief, e.turns + 1))
  }

  function ThiefMove(e: Game, m: Move): Result<Game> {
    if e.outcome != Ongoing || e.next != Thief then Err(GameRule)
    else if !LegalMove(e.grid, e.walls, e.thief, m) then Err(IllegalMove)
    else
      var e1 := CheckCaptures(e.(thief := Applied(m, e.thief), next := Police));
      Ok(if e1.outcome == Ongoing then CloseTurn(e1) else e1)
  }

  /** Whoever's turn it is takes one action. */
  function Act(e: Game, a: Action): Result<Game> {
    if e.next == Police then PoliceAct(e, a)
    else if a.Wall? then Err(GameRule)
    else ThiefMove(e, a.move)
  }

  function Play(e: Game, acts: seq<Action>): Result<Game> {
    if acts == [] then Ok(e)
    else
      var e1 :- Play(e, acts[..|acts| - 1]);
      Act(e1, acts[|acts| - 1])
  }

  datatype Scents = Scents(cop: Field, thief: Field)

  ghost predicate ScentsInRange(g: nat, f: Scents) {
    Square(g, f.cop) && Square(g, f.thief) && InRange(g, f.cop) && InRange(g, f.thief)
  }

  /** Both fields are updated when a full turn closes, and only then. */
  function ScentsAfter(e: Game, e': Game, f: Scents): Scents
    requires Square(e'.grid, f.cop) && Square(e'.grid, f.thief)
  {
    if e'.turns == e.turns then f
    else Scents(Updated(e'.grid, f.cop, e'.cop), Updated(e'.grid, f.thief, e'.thief))
  }

  /** The fields that a run of accepted actions leaves, from silence. */
  function PlayScents(e: Game, acts: seq<Action>): (f: Scents)
    requires Play(e, acts).Ok?
    ensures Square(Play(e, acts).value.grid, f.cop) && Square(Play(e, acts).value.grid, f.thief)
  {
    if acts == [] then Scents(Silence(e.grid), Silence(e.grid))
    else
      var front := acts[..|acts| - 1];
      ScentsAfter(Play(e, front).value, Play(e, acts).value, PlayScents(e, front))
  }

  /** Where the cop, and where the thief, stood each time a full turn closed. */
  function CopStops(e: Game, acts: seq<Action>): seq<Cell>
    requires Play(e, acts).Ok?
  {
    if acts == [] then []
    else
      var front := acts[..|acts| - 1];
      CopStops(e, front)
        + if Play(e, acts).value.turns > Play(e, front).value.turns then [Play(e, acts).value.cop] else []
  }

  function ThiefStops(e: Game, acts: seq<Action>): seq<Cell>
    requires Play(e, acts).Ok?
  {
    if acts == [] then []
    else
      var front := acts[..|acts| - 1];
      ThiefStops(e, front)
        + if Play(e, acts).value.turns > Play(e, front).value.turns then [Play(e, acts).value.thief] else []
  }

  lemma ActTicks(e: Game, a: Action)
    requires Act(e, a).Ok?
    ensures Act(e, a).value.grid == e.grid && e.turns <= Act(e, a).value.turns <= e.turns + 1
  {
  }

  /** The two fields of a run are the trails of the cells held when its turns closed. */
  lemma {:induction false} PlayScentsAreTrails(e: Game, acts: seq<Action>)
    requires Play(e, acts).Ok?
    ensures Play(e, acts).value.grid == e.grid
    ensures PlayScents(e, acts) == Scents(Trail(e.grid, CopStops(e, acts)), Trail(e.grid, ThiefStops(e, acts)))
    ensures |CopStops(e, acts)| == |ThiefStops(e, acts)| == Play(e, acts).value.turns - e.turns
  {
    hide Act, Trail, Updated;
    if acts == [] {
      TrailOfNone(e.grid);
    } else {
      var n := |acts| - 1;
      PlayScentsAreTrails(e, acts[..n]);
      var was, now := Play(e, acts[..n]).value, Play(e, acts).value;
      ActTicks(was, acts[n]);
      if now.turns > was.turns {
        TrailSnoc(e.grid, CopStops(e, acts[..n]), now.cop);
        TrailSnoc(e.grid, ThiefStops(e, acts[..n]), now.thief);
      } else {
        assert CopStops(e, acts) == CopStops(e, acts[..n]) && ThiefStops(e, acts) == ThiefStops(e, acts[..n]);
      }
    }
  }

  lemma TrailOfNone(g: nat)
    ensures Trail(g, []) == Silence(g)
  {
  }

  /** What every reachable game keeps. */
  predicate Sound(e: Game) {
    && InBounds(e.grid, e.cop) && InBounds(e.grid, e.thief) && |e.walls| <= e.rules.maxBarriers
    && e.outcome != TechnicalLoss
    && (forall c :: c in e.walls ==> InBounds(e.grid, c))
    && (e.outcome == Ongoing ==> e.cop != e.thief && !LawCapture(e.grid, e.walls, e.thief) && e.turns < e.rules.Limit())
    && (e.outcome == Survival ==> e.turns == e.rules.Limit())
    && (e.outcome == Capture ==> e.cop == e.thief || LawCapture(e.grid, e.walls, e.thief))
  }

  /** Actions accepted so far, counted by the clock and the turn order. */
  function HalfTurns(e: Game): nat { 2 * e.turns + (if e.next == Thief then 1 else 0) }

  /** One accepted action keeps the game sound, only adds walls, and lets a sealed
      thief be caught by a barrier alone. */
  lemma ActSound(e: Game, a: Action)
    requires e.grid >= 2 && e.rules.Valid() && Sound(e) && Act(e, a).Ok?
    ensures var e' := Act(e, a).value;
      && Sound(e') && e.outcome == Ongoing && e'.grid == e.grid && e'.rules == e.rules
      && e.walls <= e'.walls && |e'.walls| <= |e.walls| + 1 && (a.Go? ==> e'.walls == e.walls)
      && (e'.outcome == Capture && e'.cop != e'.thief ==> e.next == Police && a.Wall?)
  {
    if e.next == Thief {
      OwnMoveNeverSeals(e.grid, e.walls, e.thief, a.move);
    }
  }

  /** A game that `n` accepted actions have led to. */
  ghost predicate SoundAfter(g: nat, rules: Rules, e: Game, n: nat) {
    && Sound(e) && e.grid == g && e.rules == rules
    && n <= 2 * rules.Limit()
    && (e.outcome == Ongoing ==> n == HalfTurns(e))
    && (e.outcome == Survival ==> n == 2 * rules.Limit())
  }

  lemma SoundOneMore(g: nat, rules: Rules, e: Game, n: nat, a: Action)
    requires g >= 2 && rules.Valid() && SoundAfter(g, rules, e, n) && Act(e, a).Ok?
    ensures SoundAfter(g, rules, Act(e, a).value, n + 1)
  {
    hide Sound;
    ActSound(e, a);
    SoundClock(e);
    SoundClock(Act(e, a).value);
  }

  lemma SoundClock(e: Game)
    requires Sound(e)
    ensures e.outcome != TechnicalLoss
    ensures e.outcome == Ongoing ==> e.turns < e.rules.Limit()
    ensures e.outcome == Survival ==> e.turns == e.rules.Limit()
  {
  }

  lemma Frozen(e: Game, a: Action)
    requires e.outcome != Ongoing
    ensures Act(e, a).Err?
  {
  }

  lemma {:induction false} PlaySound(g: nat, cop: Cell, thief: Cell, rules: Rules, acts: seq<Action>)
    requires g >= 2 && rules.Valid() && InBounds(g, cop) && InBounds(g, thief) && cop != thief
    requires Play(NewGame(g, cop, thief, rules), acts).Ok?
    ensures SoundAfter(g, rules, Play(NewGame(g, cop, thief, rules), acts).value, |acts|)
  {
    hide Act, SoundAfter;
    if acts == [] {
      NewSound(g, cop, thief, rules);
    } else {
      var n := |acts| - 1;
      PlaySound(g, cop, thief, rules, acts[..n]);
      SoundOneMore(g, rules, Play(NewGame(g, cop, thief, rules), acts[..n]).value, n, acts[n]);
    }
  }

  lemma NewSound(g: nat, cop: Cell, thief: Cell, rules: Rules)
    requires g >= 2 && rules.Valid() && InBounds(g, cop) && InBounds(g, thief) && cop != thief
    ensures SoundAfter(g, rules, NewGame(g, cop, thief, rules), 0)
  {
    OpenBoardSealsNobody(g, thief);
  }

  lemma {:induction false} PlayScentsInRange(e: Game, acts: seq<Action>)
    requires Play(e, acts).Ok?
    ensures Play(e, acts).value.grid == e.grid && ScentsInRange(e.grid, PlayScents(e, acts))
  {
    if acts != [] {
      PlayScentsInRange(e, acts[..|acts| - 1]);
    }
  }

  /** Engine run safety: from distinct starts, every run of accepted actions keeps
      the game sound, its two scent fields in range, and is over within twice the
      smaller limit. */
  lemma RunSound(g: nat, cop: Cell, thief: Cell, rules: Rules, acts: seq<Action>)
    requires g >= 2 && rules.Valid() && InBounds(g, cop) && InBounds(g, thief) && cop != thief
    requires Play(NewGame(g, cop, thief, rules), acts).Ok?
    ensures var e := Play(NewGame(g, cop, thief, rules), acts).value;
      && Sound(e) && e.grid == g && e.rules == rules
      && |acts| <= 2 * rules.Limit()
      && (e.outcome == Ongoing ==> |acts| == HalfTurns(e))
      && (e.outcome == Survival ==> |acts| == 2 * rules.Limit())
      && (e.outcome != Ongoing ==> forall a :: Act(e, a).Err?)
      && ScentsInRange(g, PlayScents(NewGame(g, cop, thief, rules), acts))
  {
    hide Act, Sound, ScentsInRange;
    PlaySound(g, cop, thief, rules, acts);
    PlayScentsInRange(NewGame(g, cop, thief, rules), acts);
    var e := Play(NewGame(g, cop, thief, rules), acts).value;
    if e.outcome != Ongoing {
      forall a { Frozen(e, a); }
    }
  }

  class GameEngine {
    const rules: Rules
    const board: Board
    const copScent: ScentField
    const thiefScent: ScentField
    var cop: Cell
    var thief: Cell
    var turns: nat
    var outcome: Outcome
    var next: Role
    ghost const Repr: set<object>

    ghost predicate Valid()
      reads this, Repr
    {
      && Repr == {this, board, copScent, thiefScent} && copScent != thiefScent
      && copScent.grid == thiefScent.grid == board.grid && copScent.Valid() && thiefScent.Valid()
      && InRange(board.grid, copScent.values) && InRange(board.grid, thiefScent.values)
    }

    ghost function View(): Game
      reads this, board
    {
      Game(board.grid, rules, board.walls, cop, thief, turns, outcome, next)
    }

    ghost function Fields(): Scents
      reads copScent, thiefScent
    {
      Scents(copScent.values, thiefScent.values)
    }

    constructor (g: nat, cop: Cell, thief: Cell, rules: Rules)
      requires g >= 2 && InBounds(g, cop) && InBounds(g, thief)
      ensures Valid() && fresh(Repr) && View() == NewGame(g, cop, thief, rules)
      ensures Fields() == Scents(Silence(g), Silence(g))
    {
      this.cop, this.thief, this.rules := cop, thief, rules;
      turns, outcome, next := 0, Ongoing, Police;
      var b := new Board(g);
      var c := new ScentField(g);
      var t := new ScentField(g);
      board, copScent, thiefScent, Repr := b, c, t, {this, b, c, t};
    }

    method CheckCapturesMidRound()
      requires Valid()
      modifies this
      ensures Valid() && View() == CheckCaptures(old(View()))
    {
      if cop == thief || Surrounded(board.grid, board.walls, thief) {
        outcome := Capture;
      }
    }

    method PoliceMove(m: Move) returns (r: Result<Cell>)
      requires Valid()
      modifies this
      ensures Valid()
      ensures match PoliceAct(old(View()), Go(m))
        case Err(e) => r == Err(e) && View() == old(View())
        case Ok(e') => r == Ok(e'.cop) && View() == e'
    {
      if outcome != Ongoing || next != Police {
        return Err(GameRule);
      }
      var dest :- ApplyMove(board.grid, board.walls, cop, m);
      cop := dest;
      next := Thief;
      CheckCapturesMidRound();
      return Ok(cop);
    }

    method PolicePlaceBarrier(target: Cell) returns (r: Result<()>)
      requires Valid()
      modifies this, board
      ensures Valid()
      ensures match PoliceAct(old(View()), Wall(target))
        case Err(e) => r == Err(e) && View() == old(View())
        case Ok(e') => r.Ok? && View() == e'
    {
      if outcome != Ongoing || next != Police {
        return Err(GameRule);
      }
      var _ :- board.PlaceWall(rules, cop, target);
      next := Thief;
      if target == thief {
        outcome := Capture;
        return Ok(());
      }
      CheckCapturesMidRound();
      return Ok(());
    }

    method CloseFullTurn()
      requires Valid()
      modifies this, copScent, thiefScent
      ensures Valid() && View() == CloseTurn(old(View()))
      ensures Fields() == ScentsAfter(old(View()), View(), old(Fields()))
    {
      copScent.Update(cop);
      thiefScent.Update(thief);
      turns := turns + 1;
      outcome := OutcomeAfterFullTurn(board.grid, board.walls, rules, cop, thief, turns);
    }

    method MoveThief(m: Move) returns (r: Result<Cell>)
      requires Valid()
      modifies this, copScent, thiefScent
      ensures Valid()
      ensures match ThiefMove(old(View()), m)
        case Err(e) => r == Err(e) && View() == old(View())
        case Ok(e') => r == Ok(e'.thief) && View() == e'
      ensures Fields() == ScentsAfter(old(View()), View(), old(Fields()))
    {
      if outcome != Ongoing || next != Thief {
        return Err(GameRule);
      }
      var dest :- ApplyMove(board.grid, board.walls, thief, m);
      thief := dest;
      next := Police;
      CheckCapturesMidRound();
      if outcome == Ongoing {
        CloseFullTurn();
      }
      return Ok(thief);
    }
  }
}
