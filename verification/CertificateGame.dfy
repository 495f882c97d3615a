/** The certificate against the engine: what the search accepts is what the thief
    can force, and forcing means a strategy that beats every cop line. */
module CertificateGame {
  import opened Primitives
  import opened Boards
  import opened Scent
  import opened Certificate
  import Engine

  /** Half-turns that can still be played. */
  function Left(e: Engine.Game): nat {
    if e.outcome != Ongoing then 0
    else
      1 + (if e.turns < e.rules.Limit() then 2 * (e.rules.Limit() - e.turns) else 0)
      + (if e.next == Police then 1 else 0)
  }

  lemma ThiefMoveShortens(e: Engine.Game, m: Move)
    requires e.rules.Valid() && Engine.ThiefMove(e, m).Ok?
    ensures Left(Engine.ThiefMove(e, m).value) < Left(e)
    ensures Engine.ThiefMove(e, m).value.rules == e.rules
  {
  }

  lemma PoliceActShortens(e: Engine.Game, a: Action)
    requires e.rules.Valid() && Engine.PoliceAct(e, a).Ok?
    ensures Left(Engine.PoliceAct(e, a).value) < Left(e)
    ensures Engine.PoliceAct(e, a).value.rules == e.rules
  {
  }

  /** The thief can force survival from here, whatever legal actions the cop takes. */
  ghost predicate Forces(e: Engine.Game)
    requires e.rules.Valid()
    decreases Left(e)
  {
    if e.outcome != Ongoing then e.outcome == Survival
    else if e.next == Thief then exists m: Move :: ForcesBy(e, m)
    else forall a: Action :: Engine.PoliceAct(e, a).Ok? ==>
      (PoliceActShortens(e, a); Forces(Engine.PoliceAct(e, a).value))
  }

  ghost predicate ForcesBy(e: Engine.Game, m: Move)
    requires e.rules.Valid()
    decreases Left(e), 0
  {
    Engine.ThiefMove(e, m).Ok? && (ThiefMoveShortens(e, m); Forces(Engine.ThiefMove(e, m).value))
  }

  lemma StepOrSame(a: Cell, b: Cell)
    ensures Distance(a, b) <= 1 <==> exists m: Move :: b == Applied(m, a)
  {
    if Distance(a, b) <= 1 {
      if b == a { assert b == Applied(Stay, a); }
      else if b.row < a.row { assert b == Applied(N, a); }
      else if b.row > a.row { assert b == Applied(S, a); }
      else if b.col > a.col { assert b == Applied(E, a); }
      else { assert b == Applied(W, a); }
    }
  }

  /** A search node stands for an engine state with the thief to move. */
  ghost predicate StandsFor(b: Arena, n: Node, quota: int, e: Engine.Game) {
    && e.grid == b.grid && e.walls == b.walls + n.extra && e.cop == n.cop && e.thief == n.thief
    && e.next == Thief && e.outcome == Ongoing && e.rules.Valid()
    && quota == e.rules.maxBarriers - |e.walls|
    && n.remaining >= 1 && n.remaining == e.rules.threshold - e.turns
  }

  lemma LandedTurn(b: Arena, n: Node, quota: int, e: Engine.Game, m: Move)
    requires StandsFor(b, n, quota, e)
    ensures Lands(b, n, m) <==> Engine.ThiefMove(e, m).Ok? && Engine.ThiefMove(e, m).value.outcome != Capture
    ensures Lands(b, n, m) ==>
      var e1 := Engine.ThiefMove(e, m).value;
      && e1 == e.(thief := Applied(m, e.thief), next := Police, turns := e.turns + 1, outcome := e1.outcome)
      && e1.outcome == (if n.remaining == 1 || e.turns + 1 >= e.rules.maxMoves then Survival else Ongoing)
  {
  }

  lemma MoveReply(b: Arena, n: Node, quota: int, e: Engine.Game, m: Move, cm: Move)
    requires StandsFor(b, n, quota, e) && n.remaining > 1 && Lands(b, n, m)
    requires Engine.ThiefMove(e, m).value.outcome == Ongoing
    ensures var e1 := Engine.ThiefMove(e, m).value;
      var e2 := Engine.PoliceAct(e1, Go(cm));
      && (e2.Ok? <==> LegalMove(b.grid, b.walls + n.extra, n.cop, cm))
      && (e2.Ok? ==> (e2.value.outcome == Capture <==> Applied(cm, n.cop) == Applied(m, n.thief)))
      && (e2.Ok? && e2.value.outcome != Capture ==> StandsFor(b, AfterCopMove(n, m, cm), quota, e2.value))
  {
    LandedTurn(b, n, quota, e, m);
  }

  lemma WallReply(b: Arena, n: Node, quota: int, e: Engine.Game, m: Move, wm: Move)
    requires StandsFor(b, n, quota, e) && n.remaining > 1 && Lands(b, n, m)
    requires Engine.ThiefMove(e, m).value.outcome == Ongoing
    ensures var e1 := Engine.ThiefMove(e, m).value;
      var view, wall := b.walls + n.extra, Applied(wm, n.cop);
      var e2 := Engine.PoliceAct(e1, Wall(wall));
      && (e2.Ok? <==> quota > 0 && Passable(b.grid, view, wall))
      && (e2.Ok? ==> (e2.value.outcome == Capture <==>
            wall == Applied(m, n.thief) || Surrounded(b.grid, view + {wall}, Applied(m, n.thief))))
      && (e2.Ok? && e2.value.outcome != Capture ==> StandsFor(b, AfterCopWall(n, m, wm), quota - 1, e2.value))
  {
    LandedTurn(b, n, quota, e, m);
    StepOrSame(n.cop, Applied(wm, n.cop));
    assert b.walls + n.extra + {Applied(wm, n.cop)} == b.walls + (n.extra + {Applied(wm, n.cop)});
  }

  /** Soundness: an accepted move leaves the thief a forced survival. */
  lemma {:induction false} SearchSound(b: Arena, n: Node, quota: int, e: Engine.Game, m: Move)
    requires StandsFor(b, n, quota, e) && MoveSurvives(b, n, quota, m)
    ensures ForcesBy(e, m)
    decreases n.remaining, 0
  {
    LandedTurn(b, n, quota, e, m);
    var e1 := Engine.ThiefMove(e, m).value;
    if e1.outcome == Ongoing {
      forall a: Action | Engine.PoliceAct(e1, a).Ok?
        ensures Forces(Engine.PoliceAct(e1, a).value)
      {
        match a
        case Go(cm) =>
          MoveReply(b, n, quota, e, m, cm);
          assert OutlastsMove(b, n, quota, m, cm);
          AcceptedNode(b, AfterCopMove(n, m, cm), quota, Engine.PoliceAct(e1, a).value);
        case Wall(c) =>
          StepOrSame(e1.cop, c);
          var wm :| c == Applied(wm, e1.cop);
          WallReply(b, n, quota, e, m, wm);
          assert OutlastsWall(b, n, quota, m, wm);
          AcceptedNode(b, AfterCopWall(n, m, wm), quota - 1, Engine.PoliceAct(e1, a).value);
      }
    }
  }

  lemma {:induction false} AcceptedNode(b: Arena, n: Node, quota: int, e: Engine.Game)
    requires StandsFor(b, n, quota, e) && Survives(b, n, quota)
    ensures Forces(e)
    decreases n.remaining, 1
  {
    var m :| MoveSurvives(b, n, quota, m);
    SearchSound(b, n, quota, e, m);
  }

  /** Completeness: with the threshold no later than the move limit, every move
      that forces survival is accepted. */
  lemma {:induction false} SearchComplete(b: Arena, n: Node, quota: int, e: Engine.Game, m: Move)
    requires StandsFor(b, n, quota, e) && e.rules.threshold <= e.rules.maxMoves && ForcesBy(e, m)
    ensures MoveSurvives(b, n, quota, m)
    decreases n.remaining, 0
  {
    LandedTurn(b, n, quota, e, m);
    var e1 := Engine.ThiefMove(e, m).value;
    if n.remaining > 1 {
      forall cm: Move ensures OutlastsMove(b, n, quota, m, cm) {
        MoveReply(b, n, quota, e, m, cm);
        if LegalMove(b.grid, b.walls + n.extra, n.cop, cm) {
          ForcedNode(b, AfterCopMove(n, m, cm), quota, Engine.PoliceAct(e1, Go(cm)).value);
        }
      }
      if quota > 0 {
        forall wm: Move ensures OutlastsWall(b, n, quota, m, wm) {
          WallReply(b, n, quota, e, m, wm);
          if Passable(b.grid, b.walls + n.extra, Applied(wm, n.cop)) {
            ForcedNode(b, AfterCopWall(n, m, wm), quota - 1, Engine.PoliceAct(e1, Wall(Applied(wm, n.cop))).value);
          }
        }
      }
    }
  }

  lemma {:induction false} ForcedNode(b: Arena, n: Node, quota: int, e: Engine.Game)
    requires e.outcome != Capture ==> StandsFor(b, n, quota, e)
    requires e.rules.Valid() && e.rules.threshold <= e.rules.maxMoves && Forces(e)
    ensures e.outcome != Capture && Survives(b, n, quota)
    decreases n.remaining, 1
  {
    var m :| ForcesBy(e, m);
    SearchComplete(b, n, quota, e, m);
  }

  // --- strategies -------------------------------------------------------------

  /** A thief strategy: keep to a move that forces survival while there is one. */
  ghost function Strategy(e: Engine.Game): Move
    requires e.rules.Valid()
  {
    if exists m: Move :: ForcesBy(e, m) then var m: Move :| ForcesBy(e, m); m else Stay
  }

  /** Let the cop play `line` against a thief that follows the strategy; stops at
      the end of the game or of the line. */
  ghost function Against(e: Engine.Game, line: seq<Action>): Engine.Game
    requires e.rules.Valid()
    decreases line
  {
    if line == [] || e.outcome != Ongoing then e
    else
      var e1 := Engine.PoliceAct(e, line[0]);
      if e1.Err? || e1.value.outcome != Ongoing then (if e1.Ok? then e1.value else e)
      else
        var e2 := Engine.ThiefMove(e1.value, Strategy(e1.value));
        if e2.Err? then e1.value else Against(e2.value, line[1..])
  }

  /** Every action of the line is legal when it is played. */
  ghost predicate LegalLine(e: Engine.Game, line: seq<Action>)
    requires e.rules.Valid()
    decreases line
  {
    line == [] || e.outcome != Ongoing ||
    (var e1 := Engine.PoliceAct(e, line[0]);
     e1.Ok? &&
     (e1.value.outcome == Ongoing ==>
        var e2 := Engine.ThiefMove(e1.value, Strategy(e1.value));
        e2.Ok? ==> LegalLine(e2.value, line[1..])))
  }

  /** Against a forced survival no legal line catches the thief, and a line as
      long as the turns left runs the clock out. */
  lemma {:induction false} StrategyWins(e: Engine.Game, line: seq<Action>)
    requires e.rules.Valid() && Forces(e)
    requires e.outcome == Ongoing ==> e.next == Police && e.turns < e.rules.Limit()
    requires LegalLine(e, line)
    ensures Against(e, line).outcome != Capture
    ensures |line| + e.turns >= e.rules.Limit() ==> Against(e, line).outcome == Survival
    decreases line
  {
    if line != [] && e.outcome == Ongoing {
      var e1 := Engine.PoliceAct(e, line[0]).value;
      assert Forces(e1);
      var m :| ForcesBy(e1, m);
      assert ForcesBy(e1, Strategy(e1));
      StrategyWins(Engine.ThiefMove(e1, Strategy(e1)).value, line[1..]);
    }
  }

  /** The engine at the thief's turn as the thief sees it, with the cop put on `cop`. */
  ghost predicate AtThiefTurn(e: Engine.Game) {
    e.rules.Valid() && e.next == Thief && e.outcome == Ongoing
  }

  /** Certificate soundness.  If lock certifies a move, then from every board cell
      believed at least the threshold, taken as the cop's, that move is legal and leaves the thief a
      strategy that no legal line of cop moves and walls ever beats; a line that
      covers the turns left ends in survival. */
  lemma CertifiedMoveSurvives(s: Settings, e: Engine.Game, belief: Field, m: Move, cop: Cell, line: seq<Action>)
    requires AtThiefTurn(e)
    requires Decided(s, Arena(e.grid, e.walls), e.rules, e.thief, e.turns, belief, Some(m))
    requires Square(e.grid, belief) && InBounds(e.grid, cop) && belief[cop.row][cop.col] >= s.massThreshold
    ensures var e1 := Engine.ThiefMove(e.(cop := cop), m);
      && e1.Ok? && e1.value.rules.Valid()
      && (LegalLine(e1.value, line) ==>
            && Against(e1.value, line).outcome != Capture
            && (|line| + e.turns + 1 >= e.rules.Limit() ==> Against(e1.value, line).outcome == Survival))
  {
    hide LegalLine, Against, ForcesBy, Forces;
    CertifiedForces(s, e, belief, m, cop);
    ForcedMoveLands(e.(cop := cop), m);
    var e1 := Engine.ThiefMove(e.(cop := cop), m).value;
    if LegalLine(e1, line) {
      StrategyWins(e1, line);
    }
  }

  lemma CertifiedForces(s: Settings, e: Engine.Game, belief: Field, m: Move, cop: Cell)
    requires AtThiefTurn(e)
    requires Decided(s, Arena(e.grid, e.walls), e.rules, e.thief, e.turns, belief, Some(m))
    requires Square(e.grid, belief) && InBounds(e.grid, cop) && belief[cop.row][cop.col] >= s.massThreshold
    ensures ForcesBy(e.(cop := cop), m)
  {
    hide MoveSurvives, ForcesBy, SupportCells;
    var support := SupportCells(e.grid, belief, s.massThreshold);
    SupportFacts(e.grid, belief, s.massThreshold);
    var k :| 0 <= k < |support| && support[k] == cop;
    assert e.walls + {} == e.walls;
    var n := Node(e.thief, cop, {}, e.rules.threshold - e.turns);
    SearchSound(Arena(e.grid, e.walls), n, e.rules.maxBarriers - |e.walls|, e.(cop := cop), m);
  }

  /** A move that forces survival closes its round, with the cop to act or the game won. */
  lemma ForcedMoveLands(e: Engine.Game, m: Move)
    requires AtThiefTurn(e) && ForcesBy(e, m)
    ensures var e1 := Engine.ThiefMove(e, m);
      && e1.Ok? && e1.value.rules == e.rules && Forces(e1.value) && e1.value.turns == e.turns + 1
      && (e1.value.outcome == Ongoing ==> e1.value.next == Police && e1.value.turns < e.rules.Limit())
  {
  }

  /** The move forces survival wherever among `cops` the cop stands. */
  ghost predicate ForcesEverywhere(e: Engine.Game, cops: set<Cell>, m: Move)
    requires e.rules.Valid()
  {
    forall cop :: cop in cops ==> ForcesBy(e.(cop := cop), m)
  }

  /** The same game without an earlier stop than the survival threshold. */
  function Lifted(e: Engine.Game): Engine.Game {
    if e.rules.threshold <= e.rules.maxMoves then e else e.(rules := e.rules.(maxMoves := e.rules.threshold))
  }

  /** Certificate exactness.  Let `cops` be the board cells believed at least the
      threshold.  Where the certificate does not apply, an unaborted lock answers
      nothing; where it does, it certifies a move exactly when some move forces survival
      from all of them, and then the first such of N, S, E, W and Stay.  The game meant
      is the engine's own when the threshold is no later than the move limit, and
      otherwise the game played on to the threshold. */
  lemma CertificateExact(s: Settings, e: Engine.Game, belief: Field, cops: set<Cell>, answer: Option<Move>)
    requires AtThiefTurn(e) && Square(e.grid, belief)
    requires forall c :: c in cops <==> InBounds(e.grid, c) && belief[c.row][c.col] >= s.massThreshold
    requires Decided(s, Arena(e.grid, e.walls), e.rules, e.thief, e.turns, belief, answer)
    ensures var applies := s.enabled && 1 <= |cops| <= s.maxSupport && 1 <= e.rules.threshold - e.turns <= s.maxHorizon;
      if !applies then answer == None
      else match answer
        case None => forall m: Move :: !ForcesEverywhere(Lifted(e), cops, m)
        case Some(best) =>
          && ForcesEverywhere(Lifted(e), cops, best)
          && best ==
               if ForcesEverywhere(Lifted(e), cops, N) then N else if ForcesEverywhere(Lifted(e), cops, S) then S
               else if ForcesEverywhere(Lifted(e), cops, E) then E else if ForcesEverywhere(Lifted(e), cops, W) then W
               else Stay
  {
    hide ForcesEverywhere, SafeEverywhere;
    var b := Arena(e.grid, e.walls);
    var support := SupportCells(e.grid, belief, s.massThreshold);
    SupportFacts(e.grid, belief, s.massThreshold);
    DistinctSize(support, cops);
    if Applies(s, b, e.rules, e.turns, belief) {
      forall m: Move
        ensures SafeEverywhere(b, e.rules, e.thief, e.turns, support, m) <==> ForcesEverywhere(Lifted(e), cops, m)
      {
        SafeIsForced(b, e, support, cops, m);
      }
    }
  }

  lemma SafeIsForced(b: Arena, e: Engine.Game, support: seq<Cell>, cops: set<Cell>, m: Move)
    requires AtThiefTurn(e) && e.turns < e.rules.threshold && b == Arena(e.grid, e.walls)
    requires forall c :: c in support <==> c in cops
    ensures SafeEverywhere(b, e.rules, e.thief, e.turns, support, m) <==> ForcesEverywhere(Lifted(e), cops, m)
  {
    var quota := e.rules.maxBarriers - |e.walls|;
    assert e.walls + {} == e.walls;
    forall k | 0 <= k < |support|
      ensures MoveSurvives(b, Node(e.thief, support[k], {}, e.rules.threshold - e.turns), quota, m) <==>
              ForcesBy(Lifted(e).(cop := support[k]), m)
    {
      var n, at := Node(e.thief, support[k], {}, e.rules.threshold - e.turns), Lifted(e).(cop := support[k]);
      if MoveSurvives(b, n, quota, m) {
        SearchSound(b, n, quota, at, m);
      }
      if ForcesBy(at, m) {
        SearchComplete(b, n, quota, at, m);
      }
    }
    if ForcesEverywhere(Lifted(e), cops, m) {
      forall k | 0 <= k < |support| ensures ForcesBy(Lifted(e).(cop := support[k]), m) {
        assert support[k] in support;
      }
    }
  }

  function EarlyGame(): Engine.Game {
    Engine.Game(2, Rules(2, 1, 2), {Cell(1, 0)}, Cell(1, 1), Cell(0, 0), 0, Ongoing, Thief)
  }

  /** The thief, walled in on one side, may stay or step into the cop's reach. */
  lemma EarlyMovesFail(b: Arena, n: Node, m: Move)
    requires b == Arena(2, {Cell(1, 0)}) && n == Node(Cell(0, 0), Cell(1, 1), {}, 2)
    ensures !MoveSurvives(b, n, 1, m)
  {
    if m == Stay {
      assert !OutlastsWall(b, n, 1, m, N);
    } else if m == E {
      assert !OutlastsMove(b, n, 1, m, N);
    }
  }

  /** The gap is real, in a game the engine plays: with a move limit before the
      threshold the thief may hold a forced survival while the search, looking on
      to the threshold, refuses every move. */
  lemma EarlyLimitRefused()
    ensures var e := EarlyGame();
      var b, n, quota := Arena(e.grid, e.walls), Node(e.thief, e.cop, {}, e.rules.threshold - e.turns),
        e.rules.maxBarriers - |e.walls|;
      && Engine.Play(Engine.NewGame(2, Cell(1, 1), Cell(0, 0), Rules(2, 1, 2)), [Wall(Cell(1, 0))]) == Ok(e)
      && AtThiefTurn(e) && e.rules.maxMoves < e.rules.threshold && ForcesBy(e, Stay)
      && forall m: Move :: !MoveSurvives(b, n, quota, m)
  {
    var e, e0 := EarlyGame(), Engine.NewGame(2, Cell(1, 1), Cell(0, 0), Rules(2, 1, 2));
    assert [Wall(Cell(1, 0))][..0] == [];
    assert Engine.Play(e0, []) == Ok(e0);
    forall m: Move { EarlyMovesFail(Arena(e.grid, e.walls), Node(e.thief, e.cop, {}, 2), m); }
  }
}
