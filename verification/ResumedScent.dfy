/** What a resume costs: the scent trust starts over, its age counting from the resume
    while the rival's start cell stays where it was. */
module ResumedScent {
  import opened Primitives
  import opened Boards
  import opened Scent
  import opened Forensics
  import opened Perception
  import opened OwnState
  import opened Messages
  import opened HiddenTurns
  import opened Audit
  import opened Protocol
  import opened StepEffects
  import opened Agreement
  import opened HonestScent
  import opened ScriptedRuns
  import Receiver
  import opened Resume

  ghost predicate OnBoard(g: nat, cells: seq<Cell>) { forall i :: 0 <= i < |cells| ==> InBounds(g, cells[i]) }

  /** The restarted envelope has room for the `j`-th frame after the resume. */
  ghost predicate RoomAfterRestart(g: nat, start: Cell, cells: seq<Cell>, k: nat, walls: seq<set<Cell>>, j: nat)
    requires j < |walls| && k + |walls| <= |cells|
  {
    !IncredibleSaturation(g, Trail(g, cells[..k + j + 1]), walls[j], CredibleCells(g, Some(start), j + 1))
  }

  function Rewatched(g: nat, eps: real, start: Cell, cells: seq<Cell>, k: nat, walls: seq<set<Cell>>, n: nat)
    : (t: Trust)
    requires n <= |walls| && k + |walls| <= |cells|
    ensures t.Valid() && t.grid == g && t.anchor == Some(start) && t.age == n
    ensures t.prev == if n == 0 then None else Some(Trail(g, cells[..k + n]))
  {
    var frames := TrailFrames(g, cells, k, |walls|);
    assert n > 0 ==> frames[..n][n - 1] == Trail(g, cells[..k + n]);
    Watch(FreshTrust(g, eps, Some(start)), frames[..n], walls[..n])
  }

  /** Believed so far: nothing refused, no break pending. */
  predicate Believed(t: Trust) { t.book && t.trusted && t.refused == 0 && t.breaks == 0 }

  lemma RewatchedOneMore(g: nat, eps: real, start: Cell, cells: seq<Cell>, k: nat,
      walls: seq<set<Cell>>, n: nat)
    requires n < |walls| && k + |walls| <= |cells|
    ensures Rewatched(g, eps, start, cells, k, walls, n + 1) ==
            Observed(Rewatched(g, eps, start, cells, k, walls, n), Trail(g, cells[..k + n + 1]), walls[n])
  {
    hide Observed;
    WatchSnoc(FreshTrust(g, eps, Some(start)), TrailFrames(g, cells, k, |walls|), walls, n);
  }

  lemma OutsideRefused(t: Trust, f: Field, walls: set<Cell>)
    requires t.Valid() && Square(t.grid, f) && Envelope(t.(age := t.age + 1), f, walls)
    ensures !Observed(t, f, walls).trusted && Observed(t, f, walls).refused == t.refused + 1
  {
    hide IncredibleSaturation, CredibleCells, Solve;
  }

  /** A frame that is law-abiding by itself is refused by the envelope or not at all. */
  lemma NextBelieved(t: Trust, start: Cell, cells: seq<Cell>, walls: set<Cell>, n: nat)
    requires Believed(t) && t.Valid() && t.anchor == Some(start) && t.age == n
    requires cells != [] && InBounds(t.grid, cells[|cells| - 1])
    requires t.prev.Some? ==> |cells| > 1 && t.prev == Some(Trail(t.grid, cells[..|cells| - 1]))
    ensures var f, t' := Trail(t.grid, cells), Observed(t, Trail(t.grid, cells), walls);
      if IncredibleSaturation(t.grid, f, walls, CredibleCells(t.grid, Some(start), n + 1))
      then !t'.trusted && t'.refused == 1 else Believed(t')
  {
    hide Trail, IncredibleSaturation, CredibleCells, Observed;
    var f := Trail(t.grid, cells);
    if Envelope(t.(age := t.age + 1), f, walls) {
      OutsideRefused(t, f, walls);
    } else if t.prev.Some? {
      HonestAfterHonest(t, cells, walls);
    } else {
      FirstFrameFree(t, f, walls);
    }
  }

  lemma PrefixLast(g: nat, cells: seq<Cell>, n: nat)
    requires 0 < n <= |cells| && OnBoard(g, cells)
    ensures cells[..n][..n - 1] == cells[..n - 1] && cells[..n][n - 1] == cells[n - 1] && InBounds(g, cells[n - 1])
  {
  }

  lemma NextRewatched(g: nat, eps: real, start: Cell, cells: seq<Cell>, k: nat, walls: seq<set<Cell>>, n: nat)
    requires n < |walls| && k + |walls| <= |cells| && OnBoard(g, cells)
    requires Believed(Rewatched(g, eps, start, cells, k, walls, n))
    ensures var t := Rewatched(g, eps, start, cells, k, walls, n + 1);
      if RoomAfterRestart(g, start, cells, k, walls, n) then Believed(t) else !t.trusted && t.refused == 1
  {
    hide Rewatched, Believed, Observed, Trail, IncredibleSaturation, CredibleCells, OnBoard;
    var seen := cells[..k + n + 1];
    PrefixLast(g, cells, k + n + 1);
    NextBelieved(Rewatched(g, eps, start, cells, k, walls, n), start, seen, walls[n], n);
    RewatchedOneMore(g, eps, start, cells, k, walls, n);
  }

  /** Up to the first frame outside the restarted envelope everything is believed. */
  lemma {:induction false} StillBelieved(g: nat, eps: real, start: Cell, cells: seq<Cell>, k: nat,
      walls: seq<set<Cell>>, n: nat)
    requires n <= |walls| && k + |walls| <= |cells| && OnBoard(g, cells)
    requires forall j :: 0 <= j < n ==> RoomAfterRestart(g, start, cells, k, walls, j)
    ensures Believed(Rewatched(g, eps, start, cells, k, walls, n))
    decreases n
  {
    hide Rewatched, OnBoard, RoomAfterRestart;
    if n > 0 {
      StillBelieved(g, eps, start, cells, k, walls, n - 1);
      NextRewatched(g, eps, start, cells, k, walls, n - 1);
    } else {
      NothingHeard(g, eps, start, cells, k, walls);
    }
  }

  lemma NothingHeard(g: nat, eps: real, start: Cell, cells: seq<Cell>, k: nat, walls: seq<set<Cell>>)
    requires k + |walls| <= |cells|
    ensures Believed(Rewatched(g, eps, start, cells, k, walls, 0))
  {
  }

  lemma RewatchedLost(g: nat, eps: real, start: Cell, cells: seq<Cell>, k: nat,
      walls: seq<set<Cell>>, n: nat)
    requires n <= |walls| && k + |walls| <= |cells| && !Rewatched(g, eps, start, cells, k, walls, n).trusted
    ensures var was, now := Rewatched(g, eps, start, cells, k, walls, n),
        Rewatched(g, eps, start, cells, k, walls, |walls|);
      !now.trusted && now.refused == was.refused + |walls| - n
  {
    var frames := TrailFrames(g, cells, k, |walls|);
    LostForGood(FreshTrust(g, eps, Some(start)), frames, walls, n);
    assert frames[..|walls|] == frames && walls[..|walls|] == walls;
  }

  /** From the first frame outside it on, everything is refused. */
  lemma RefusedFrom(g: nat, eps: real, start: Cell, cells: seq<Cell>, k: nat,
      walls: seq<set<Cell>>, first: nat)
    requires first < |walls| && k + |walls| <= |cells| && OnBoard(g, cells)
    requires (forall j :: 0 <= j < first ==> RoomAfterRestart(g, start, cells, k, walls, j))
    requires !RoomAfterRestart(g, start, cells, k, walls, first)
    ensures var t := Rewatched(g, eps, start, cells, k, walls, |walls|); !t.trusted && t.refused == |walls| - first
  {
    hide Rewatched, OnBoard, RoomAfterRestart;
    StillBelieved(g, eps, start, cells, k, walls, first);
    NextRewatched(g, eps, start, cells, k, walls, first);
    RewatchedLost(g, eps, start, cells, k, walls, first + 1);
  }

  /** The first frame outside the restarted envelope. */
  ghost predicate FirstOut(g: nat, start: Cell, cells: seq<Cell>, k: nat, walls: seq<set<Cell>>, first: nat)
    requires k + |walls| <= |cells|
  {
    && first < |walls| && !RoomAfterRestart(g, start, cells, k, walls, first)
    && forall j :: 0 <= j < first ==> RoomAfterRestart(g, start, cells, k, walls, j)
  }

  lemma FirstOutside(g: nat, start: Cell, cells: seq<Cell>, k: nat, walls: seq<set<Cell>>, j: nat) returns (first: nat)
    requires j < |walls| && k + |walls| <= |cells| && !RoomAfterRestart(g, start, cells, k, walls, j)
    ensures FirstOut(g, start, cells, k, walls, first)
  {
    hide RoomAfterRestart;
    first := 0;
    while RoomAfterRestart(g, start, cells, k, walls, first)
      invariant first <= j && forall i :: 0 <= i < first ==> RoomAfterRestart(g, start, cells, k, walls, i)
      decreases j - first
    {
      first := first + 1;
    }
  }

  /** What starting the trust over costs.  After a resume at turn `k` of any honest
      trail, the rival is trusted after the next frames exactly when each of them lies
      inside the restarted envelope, and then nothing was refused; otherwise every
      frame from the first one outside it on has been refused. */
  lemma ResumedTrust(g: nat, eps: real, start: Cell, cells: seq<Cell>, k: nat, walls: seq<set<Cell>>)
    requires k + |walls| <= |cells| && OnBoard(g, cells)
    ensures var t, n := Rewatched(g, eps, start, cells, k, walls, |walls|), |walls|;
      && (t.trusted <==> forall j :: 0 <= j < n ==> RoomAfterRestart(g, start, cells, k, walls, j))
      && (t.trusted ==> t.refused == 0 && t.breaks == 0)
      && forall first :: FirstOut(g, start, cells, k, walls, first) ==> t.refused == n - first
  {
    hide RoomAfterRestart, Rewatched;
    forall first | FirstOut(g, start, cells, k, walls, first)
      ensures Rewatched(g, eps, start, cells, k, walls, |walls|).refused == |walls| - first
    {
      RefusedFrom(g, eps, start, cells, k, walls, first);
    }
    if j :| 0 <= j < |walls| && !RoomAfterRestart(g, start, cells, k, walls, j) {
      var first := FirstOutside(g, start, cells, k, walls, j);
      RefusedFrom(g, eps, start, cells, k, walls, first);
    } else {
      StillBelieved(g, eps, start, cells, k, walls, |walls|);
    }
  }

  /** Where an agent has just emitted, its field reads at the clamp. */
  lemma HeadSaturated(g: nat, cells: seq<Cell>)
    requires cells != [] && InBounds(g, cells[|cells| - 1])
    ensures var e := cells[|cells| - 1]; Saturated(Trail(g, cells)[e.row][e.col])
  {
    var e, n := cells[|cells| - 1], |cells| - 1;
    if n > 0 {
      TrailSupport(g, cells[..n], e.row, e.col);
    }
    assert Trail(g, cells)[e.row][e.col] == Lawful(Trail(g, cells[..n])[e.row][e.col], Cell(e.row, e.col), e);
  }

  lemma HeadOutside(g: nat, f: Field, walls: set<Cell>, allowed: set<Cell>, e: Cell)
    requires Square(g, f) && InBounds(g, e) && e !in walls && e !in allowed && Saturated(f[e.row][e.col])
    ensures IncredibleSaturation(g, f, walls, allowed)
  {
    assert e in SaturatedCells(g, f, walls) - allowed;
  }

  /** A rival that has walked away from its start is outside at once. */
  lemma WanderedOff(g: nat, start: Cell, cells: seq<Cell>, k: nat, walls: seq<set<Cell>>, j: nat)
    requires j < |walls| && k + |walls| <= |cells| && OnBoard(g, cells)
    requires cells[k + j] !in walls[j] && cells[k + j] !in CredibleCells(g, Some(start), j + 1)
    ensures !RoomAfterRestart(g, start, cells, k, walls, j)
  {
    hide Trail, CredibleCells;
    var seen := cells[..k + j + 1];
    PrefixLast(g, cells, k + j + 1);
    HeadSaturated(g, seen);
    HeadOutside(g, Trail(g, seen), walls[j], CredibleCells(g, Some(start), j + 1), cells[k + j]);
  }

  // --- a run in which it happens ------------------------------------------------

  /** A 5x5 board, the rivals in opposite corners. */
  function FiveByFive(): Setup {
    Setup(Terms(5, Cell(4, 4), Cell(0, 0), Rules(1, 10, 10)), 1, 0.006, 0.006, 0, 0)
  }

  /** Rounds in which the thief walks along the upper edge and the cop waits. */
  function EastRounds(n: nat): seq<Label> {
    if n == 0 then [] else EastRounds(n - 1) + (FirstHalf(E) + SecondHalf(Stay))
  }

  function East(n: nat): seq<Cell> { if n == 0 then [] else East(n - 1) + [Cell(0, n)] }

  function WalkEast(): seq<Label> { EastRounds(3) + [Acts(Thief, MovesTo(E))] }

  lemma EastIsOpen(n: nat)
    requires n < 4
    ensures Start(FiveByFive()).Valid() && FiveByFive().Valid() && |East(n)| == n
    ensures n + 1 < FiveByFive().terms.rules.Limit()
    ensures FiveByFive().terms.grid == 5 && Applied(E, Cell(0, n)) == Cell(0, n + 1)
    ensures Applied(Stay, Cell(4, 4)) == Cell(4, 4)
    ensures LegalMove(5, {}, Cell(0, n), E) && LegalMove(5, {}, Cell(4, 4), Stay)
  {
    if n > 0 {
      EastIsOpen(n - 1);
    }
  }

  lemma EastStarts() returns (s: Sys)
    ensures Run(Start(FiveByFive()), EastRounds(0)) == Some(s)
    ensures Positions(FiveByFive(), s, Cell(4, 4), Cell(0, 0), East(0)) && ThiefToMove(FiveByFive(), s)
  {
    StartInv(FiveByFive());
    s := Start(FiveByFive());
  }

  lemma {:induction false} EastRoundsHappen(n: nat) returns (s: Sys)
    requires n < 4
    ensures Run(Start(FiveByFive()), EastRounds(n)) == Some(s)
    ensures Positions(FiveByFive(), s, Cell(4, 4), Cell(0, n), East(n)) && ThiefToMove(FiveByFive(), s)
  {
    hide Run, Start, Positions, ThiefToMove, FiveByFive, FirstHalf, SecondHalf;
    var u := FiveByFive();
    if n == 0 {
      s := EastStarts();
    } else {
      var s1 := EastRoundsHappen(n - 1);
      EastIsOpen(n - 1);
      s := PlayRound(u, s1, Cell(4, 4), Cell(0, n - 1), East(n - 1), E, Stay);
      RunConcat(Start(u), EastRounds(n - 1), FirstHalf(E) + SecondHalf(Stay));
    }
  }

  lemma PositionsValid(u: Setup, s: Sys, cop: Cell, thief: Cell, cells: seq<Cell>)
    requires Positions(u, s, cop, thief, cells)
    ensures s.Valid()
  {
  }

  lemma WalkEastHappens() returns (s: Sys)
    ensures FiveByFive().Valid() && Run(Start(FiveByFive()), WalkEast()) == Some(s)
    ensures Positions(FiveByFive(), s, Cell(4, 4), Cell(0, 4), East(4))
    ensures PoliceToHear(FiveByFive(), s)
  {
    hide Run, Start, Positions, ThiefToMove, PoliceToHear, FiveByFive, EastRounds, FirstHalf, SecondHalf, MovesTo;
    var u := FiveByFive();
    var s3 := EastRoundsHappen(3);
    EastIsOpen(3);
    s := ThiefMoves(u, s3, Cell(4, 4), Cell(0, 3), East(3), E);
    assert East(4) == East(3) + [Cell(0, 4)];
    PositionsValid(u, s3, Cell(4, 4), Cell(0, 3), East(3));
    RunOne(s3, Acts(Thief, MovesTo(E)), s);
    RunConcat(Start(u), EastRounds(3), [Acts(Thief, MovesTo(E))]);
  }

  /** The police process of that game and a fresh one of the same game. */
  function PoliceProcess(p: Peer, inbox: Receiver.Inbox, lastSent: Option<Message>, opponent: Offer): Process {
    Process(p, inbox, lastSent, opponent, PeerGroupId(opponent))
  }

  lemma FreshFrameOutside(f: Field)
    requires f == Trail(5, East(4))
    ensures !Observed(FreshTrust(5, 0.006, Some(Cell(0, 0))), f, {}).trusted
  {
    hide Trail, Observed;
    HeadSaturated(5, East(4));
    HeadOutside(5, f, {}, CredibleCells(5, Some(Cell(0, 0)), 1), Cell(0, 4));
    OutsideRefused(FreshTrust(5, 0.006, Some(Cell(0, 0))), f, {});
  }

  /** What the police peer smells of the thief's fourth step. */
  lemma HeardInFlight(s: Sys) returns (m: Message)
    requires Run(Start(FiveByFive()), WalkEast()) == Some(s) && PoliceToHear(FiveByFive(), s) && Frame(FiveByFive(), s)
    ensures s.toPolice != [] && m == s.toPolice[0] && m.sender == Thief && m.barrier == None && !m.Caught()
    ensures Dense(5, m.smell) == Trail(5, s.thief.own.boundary)
  {
    hide Trail, Dense, Serialize;
    m := s.toPolice[0];
    StartInv(FiveByFive());
    StartRestorable(FiveByFive());
    RunRestorable(FiveByFive(), Start(FiveByFive()), WalkEast());
    TrailCrosses(5, s.thief.own.boundary);
  }

  lemma RestartedDisbelieves(p: Peer, q: Peer, m: Message)
    requires p.Valid() && p.own.role == Police && p.own.token == Thief && p.own.outcome == Ongoing
    requires p.own.grid == 5 && p.own.walls == {}
    requires q == p.(trust := FreshTrust(5, 0.006, Some(Cell(0, 0))))
    requires m.sender == Thief && m.barrier == None && !m.Caught()
    requires Dense(5, m.smell) == Trail(5, East(4))
    ensures TheirHalfTurn(q, m, 0).Ok? && !TheirHalfTurn(q, m, 0).value.0.trust.trusted
  {
    hide Trail, Dense, Observed, Updated;
    FreshFrameOutside(Dense(5, m.smell));
    var _ := PoliceHearsStep(q, m, 0);
  }

  lemma HeardAndTrusted(u: Setup, labels: seq<Label>, s: Sys)
    requires u.Valid() && Start(u).Valid() && Run(Start(u), labels) == Some(s) && PoliceToHear(u, s) && Frame(u, s)
    ensures Next(s, Hears(Police, 0)).Some? && Next(s, Hears(Police, 0)).value.police.trust.trusted
  {
    hide Run, Start, Next, PoliceToHear;
    var s' := PoliceHearsNext(u, s, 0);
    RunOne(s, Hears(Police, 0), s');
    RunConcat(Start(u), labels, [Hears(Police, 0)]);
    NoFalseRefusal(u, labels + [Hears(Police, 0)]);
  }

  lemma UncrashedBelieves(u: Setup, labels: seq<Label>, s: Sys, m: Message)
    requires u.Valid() && Start(u).Valid() && Run(Start(u), labels) == Some(s) && PoliceToHear(u, s) && Frame(u, s)
    requires s.toPolice != [] && m == s.toPolice[0] && m.sender == Thief && m.barrier == None && !m.Caught()
    ensures TheirHalfTurn(s.police, m, 0).Ok? && TheirHalfTurn(s.police, m, 0).value.0.trust.trusted
  {
    hide TheirHalfTurn, Run, Start, Observed, Dense, AfterStep;
    HeardAndTrusted(u, labels, s);
    var p' := PoliceHearsStep(s.police, m, 0);
    HearShape(s, Police, 0, p', None);
  }

  /** The cost is real: in this honest game the police process that crashes and resumes
      in the fourth round loses its trust in the thief over the very frame that it
      would have believed without the crash. */
  lemma HonestRivalDisbelieved(inbox: Receiver.Inbox, lastSent: Option<Message>, opponent: Offer, turn: nat)
    ensures FiveByFive().Valid() && Run(Start(FiveByFive()), WalkEast()).Some?
    ensures var u := FiveByFive();
      var s := Run(Start(u), WalkEast()).value;
      var restarted := PoliceProcess(Start(u).police, Receiver.Inbox({}, map[], []), None, opponent);
      && s.police.Valid() && s.toPolice != []
      && var r := Rearmed(restarted, BuildSnapshot(PoliceProcess(s.police, inbox, lastSent, opponent), turn));
         var m := s.toPolice[0];
         && TheirHalfTurn(s.police, m, 0).Ok? && TheirHalfTurn(s.police, m, 0).value.0.trust.trusted
         && r.Ok? && r.value.0.peer.Valid()
         && TheirHalfTurn(r.value.0.peer, m, 0).Ok? && !TheirHalfTurn(r.value.0.peer, m, 0).value.0.trust.trusted
  {
    hide Rearmed, BuildSnapshot, TheirHalfTurn, WalkEast, Dense, Trail;
    var u := FiveByFive();
    var s := WalkEastHappens();
    var m := HeardInFlight(s);
    EastIsOpen(0);
    UncrashedBelieves(u, WalkEast(), s, m);
    var x := PoliceProcess(s.police, inbox, lastSent, opponent);
    var restarted := PoliceProcess(Start(u).police, Receiver.Inbox({}, map[], []), None, opponent);
    CrashResume(u, WalkEast(), Police, x, restarted, turn);
    RestartedDisbelieves(s.police, s.police.(trust := restarted.peer.trust), m);
  }
}
