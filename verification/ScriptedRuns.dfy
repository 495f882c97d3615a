/** Runs of the two-peer system in which both sides only move, nothing is claimed and
    no wall is placed; concrete runs are put together from their half-turns. */
module ScriptedRuns {
  import opened Primitives
  import opened Boards
  import opened OwnState
  import opened Messages
  import opened Perception
  import opened HiddenTurns
  import opened Protocol
  import opened StepEffects
  import opened Agreement
  import opened Completeness

  function MovesTo(m: Move): Choice { Choice(Go(m), "", true, false, 0) }

  /** The thief moves and the police hears of it. */
  function FirstHalf(m: Move): seq<Label> { [Acts(Thief, MovesTo(m)), Hears(Police, 0)] }

  /** The police moves and the thief hears of it. */
  function SecondHalf(m: Move): seq<Label> { [Acts(Police, MovesTo(m)), Hears(Thief, 0)] }

  /** Who stands where, and where the thief's rounds closed, on a board without walls. */
  ghost predicate Positions(u: Setup, s: Sys, cop: Cell, thief: Cell, cells: seq<Cell>) {
    && u.Valid() && Frame(u, s) && s.police.own.cell == cop && s.thief.own.cell == thief
    && s.thief.own.boundary == cells && s.thief.own.turns == |cells| && s.police.own.walls == {}
  }

  lemma {:induction false} RunConcat(s: Sys, a: seq<Label>, b: seq<Label>)
    requires s.Valid() && Run(s, a).Some?
    ensures Run(s, a + b) == Run(Run(s, a).value, b)
    ensures StayedUnasked(s, a + b) == (StayedUnasked(s, a) || StayedUnasked(Run(s, a).value, b))
    decreases a
  {
    hide Next, StaysUnasked;
    if a == [] {
      assert a + b == b;
    } else {
      RunConcat(Next(s, a[0]).value, a[1..], b);
      assert (a + b)[1..] == a[1..] + b;
    }
  }

  lemma RunOne(s: Sys, l: Label, s': Sys)
    requires s.Valid() && Next(s, l) == Some(s')
    ensures Run(s, [l]) == Some(s')
    ensures StayedUnasked(s, [l]) == (l.Acts? && l.role == Thief && StaysUnasked(s, l.choice.action))
  {
  }

  lemma MoveEnabled(s: Sys, role: Role, m: Move)
    requires s.Valid() && CanAct(if role == Thief then s.thief else s.police)
    requires var o := (if role == Thief then s.thief else s.police).own; LegalMove(o.grid, o.walls, o.cell, m)
    ensures Next(s, Acts(role, MovesTo(m))).Some?
  {
  }

  lemma ThiefMoves(u: Setup, s: Sys, cop: Cell, thief: Cell, cells: seq<Cell>, m: Move) returns (s': Sys)
    requires Positions(u, s, cop, thief, cells) && ThiefToMove(u, s) && LegalMove(u.terms.grid, {}, thief, m)
    ensures Next(s, Acts(Thief, MovesTo(m))) == Some(s') && PoliceToHear(u, s')
    ensures Positions(u, s', cop, Applied(m, thief), cells + [Applied(m, thief)])
  {
    MoveEnabled(s, Thief, m);
    var message;
    s', message := ThiefActsNext(u, s, MovesTo(m));
    ThiefActedPhase(u, s, s', Go(m), message);
  }

  lemma PoliceListens(u: Setup, s: Sys, cop: Cell, thief: Cell, cells: seq<Cell>) returns (s': Sys)
    requires Positions(u, s, cop, thief, cells) && PoliceToHear(u, s)
    ensures Next(s, Hears(Police, 0)) == Some(s') && Positions(u, s', cop, thief, cells)
    ensures if |cells| >= u.terms.rules.Limit() then EndedBySurvival(u, s') else PoliceToMove(u, s')
  {
    s' := PoliceHearsNext(u, s, 0);
    StepHeardPhase(u, s, s');
  }

  lemma PoliceMoves(u: Setup, s: Sys, cop: Cell, thief: Cell, cells: seq<Cell>, m: Move) returns (s': Sys)
    requires Positions(u, s, cop, thief, cells) && PoliceToMove(u, s) && LegalMove(u.terms.grid, {}, cop, m)
    ensures Next(s, Acts(Police, MovesTo(m))) == Some(s') && ThiefToHear(u, s') && s'.toThief[0].claim == None
    ensures Positions(u, s', Applied(m, cop), thief, cells)
  {
    MoveEnabled(s, Police, m);
    var message;
    s', message := PoliceActsNext(u, s, MovesTo(m));
    PoliceActedPhase(u, s, s', Go(m), message);
    NothingClaimed(s, MovesTo(m));
  }

  lemma NothingClaimed(s: Sys, ch: Choice)
    requires s.Valid() && !ch.gate && s.toThief == [] && Next(s, Acts(Police, ch)).Some?
    ensures var s' := Next(s, Acts(Police, ch)).value; |s'.toThief| == 1 && s'.toThief[0].claim == None
  {
  }

  /** Without walls and claims nobody is caught. */
  lemma NobodyCaught(o: Own, m: Message)
    requires o.Valid() && o.grid >= 2 && InBounds(o.grid, o.cell) && o.walls == {} && m.barrier == None
    requires m.claim == None
    ensures AfterPolice(o, m).walls == {} && !Caught(AfterPolice(o, m), m)
  {
    OpenBoardSealsNobody(o.grid, o.cell);
  }

  lemma ThiefListens(u: Setup, s: Sys, cop: Cell, thief: Cell, cells: seq<Cell>) returns (s': Sys)
    requires Positions(u, s, cop, thief, cells) && ThiefToHear(u, s) && s.toThief[0].claim == None
    ensures Next(s, Hears(Thief, 0)) == Some(s') && Positions(u, s', cop, thief, cells) && ThiefToMove(u, s')
  {
    hide Seals, Surrounded, LegalMove, Caught, Dense, Serialize, Observed;
    NobodyCaught(s.thief.own, s.toThief[0]);
    var closing;
    s', closing := ThiefHearsNext(u, s, 0);
    PoliceHeardPhase(u, s, s', closing);
  }

  lemma TwoLabels(s: Sys, l: Label, s1: Sys, l': Label, s2: Sys)
    requires s.Valid() && s1.Valid() && Next(s, l) == Some(s1) && Next(s1, l') == Some(s2)
    ensures Run(s, [l, l']) == Some(s2)
    ensures StayedUnasked(s, [l, l']) ==
      ((l.Acts? && l.role == Thief && StaysUnasked(s, l.choice.action)) || StayedUnasked(s1, [l']))
  {
    RunOne(s, l, s1);
    RunOne(s1, l', s2);
    RunConcat(s, [l], [l']);
    assert [l] + [l'] == [l, l'];
  }

  lemma PlayFirstHalf(u: Setup, s: Sys, cop: Cell, thief: Cell, cells: seq<Cell>, m: Move) returns (s': Sys)
    requires Positions(u, s, cop, thief, cells) && ThiefToMove(u, s) && LegalMove(u.terms.grid, {}, thief, m)
    ensures Run(s, FirstHalf(m)) == Some(s') && StayedUnasked(s, FirstHalf(m)) == StaysUnasked(s, Go(m))
    ensures Positions(u, s', cop, Applied(m, thief), cells + [Applied(m, thief)])
    ensures if |cells| + 1 >= u.terms.rules.Limit() then EndedBySurvival(u, s') else PoliceToMove(u, s')
  {
    var s1 := ThiefMoves(u, s, cop, thief, cells, m);
    s' := PoliceListens(u, s1, cop, Applied(m, thief), cells + [Applied(m, thief)]);
    RunOne(s1, Hears(Police, 0), s');
    TwoLabels(s, Acts(Thief, MovesTo(m)), s1, Hears(Police, 0), s');
  }

  lemma PlaySecondHalf(u: Setup, s: Sys, cop: Cell, thief: Cell, cells: seq<Cell>, m: Move) returns (s': Sys)
    requires Positions(u, s, cop, thief, cells) && PoliceToMove(u, s) && LegalMove(u.terms.grid, {}, cop, m)
    ensures Run(s, SecondHalf(m)) == Some(s') && Positions(u, s', Applied(m, cop), thief, cells) && ThiefToMove(u, s')
  {
    var s1 := PoliceMoves(u, s, cop, thief, cells, m);
    s' := ThiefListens(u, s1, Applied(m, cop), thief, cells);
    TwoLabels(s, Acts(Police, MovesTo(m)), s1, Hears(Thief, 0), s');
  }

  /** One whole round: the thief moves, the police moves, both hear of it. */
  lemma PlayRound(u: Setup, s: Sys, cop: Cell, thief: Cell, cells: seq<Cell>, m: Move, reply: Move) returns (s': Sys)
    requires Positions(u, s, cop, thief, cells) && ThiefToMove(u, s) && |cells| + 1 < u.terms.rules.Limit()
    requires LegalMove(u.terms.grid, {}, thief, m) && LegalMove(u.terms.grid, {}, cop, reply)
    ensures Run(s, FirstHalf(m) + SecondHalf(reply)) == Some(s') && ThiefToMove(u, s')
    ensures Positions(u, s', Applied(reply, cop), Applied(m, thief), cells + [Applied(m, thief)])
  {
    var s1 := PlayFirstHalf(u, s, cop, thief, cells, m);
    s' := PlaySecondHalf(u, s1, cop, Applied(m, thief), cells + [Applied(m, thief)], reply);
    RunConcat(s, FirstHalf(m), SecondHalf(reply));
  }
}
