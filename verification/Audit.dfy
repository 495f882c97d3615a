/** The end-of-game audit: both sides' revealed records are sorted into game
    order and replayed through the board physics. */
module Audit {
  import opened Primitives
  import opened Boards
  import opened OwnState
  import opened Messages
  import opened Sorting

  datatype Terms = Terms(grid: nat, copStart: Cell, thiefStart: Cell, rules: Rules)

  /** One revealed half-turn with the capture claim declared live beside it. */
  datatype Entry = Entry(payload: Payload, claim: Option<Cell>)

  /** A landing co-location that the reveals prove and nobody claimed. */
  datatype Evidence = Evidence(step: nat, cell: Cell)

  datatype Replay = Replay(
    walls: set<Cell>, cop: Cell, thief: Cell, turns: nat, outcome: Outcome,
    pending: Option<Evidence>, disputed: Option<Evidence>)

  datatype Reconstruction = Reconstruction(digest: Digest, outcome: Outcome, turns: nat, disputed: Option<Evidence>)

  // --- declarations -----------------------------------------------------------

  function SealedBarrier(p: Payload): Option<Cell> {
    if p.Step? && p.action.Wall? then Some(p.action.cell) else None
  }

  /** The live claim of a record, once its open declarations match its seal. */
  function VerifyDeclared(r: Record): Result<Option<Cell>> {
    if r.payload.None? || r.declared.None? then Ok(None)
    else if r.declared.value.barrier != SealedBarrier(r.payload.value) then Err(GameRule)
    else if r.declared.value.hint.Some? && r.payload.value.Step? && r.declared.value.hint.value != r.payload.value.hint
    then Err(GameRule)
    else Ok(r.declared.value.claim)
  }

  predicate Replayable(r: Record) { r.payload.Some? && r.payload.value.Step? }

  predicate AllSteps(es: seq<Entry>) { forall i :: 0 <= i < |es| ==> es[i].payload.Step? }

  /** The replayable records with their verified declarations. */
  function Entries(rs: seq<Record>): (r: Result<seq<Entry>>)
    ensures r.Ok? ==> AllSteps(r.value)
  {
    if rs == [] then Ok([])
    else
      var front :- Entries(rs[..|rs| - 1]);
      var last := rs[|rs| - 1];
      if !Replayable(last) then Ok(front)
      else
        var claim :- VerifyDeclared(last);
        Ok(front + [Entry(last.payload.value, claim)])
  }

  // --- game order -------------------------------------------------------------

  /** (step, thief first) as one number. */
  function Key(e: Entry): int {
    if e.payload.Step? then 2 * e.payload.step + (if e.payload.role == Thief then 0 else 1) else 0
  }

  function SortEntries(es: seq<Entry>): (r: seq<Entry>)
    ensures AllSteps(es) ==> AllSteps(r)
  {
    SameMembers(es, Key);
    assert AllSteps(es) ==> forall e :: e in Sort(es, Key) ==> e.payload.Step?;
    Sort(es, Key)
  }

  // --- the replay -------------------------------------------------------------

  function Opening(t: Terms): Replay {
    Replay({}, t.copStart, t.thiefStart, 0, Ongoing, None, None)
  }

  /** The thief's action-free record, read after an end as its concession. */
  predicate Closure(p: Payload)
    requires p.Step?
  {
    p.action == Go(Stay) && p.role != Police
  }

  /** The revealed action through the board physics. */
  function Enact(t: Terms, s: Replay, p: Payload): Result<Replay>
    requires p.Step?
  {
    match p.action
    case Wall(target) =>
      if p.role != Police then Err(GameRule)
      else if !LegalWall(t.grid, s.walls, t.rules, s.cop, target) then Err(IllegalBarrier)
      else Ok(s.(walls := s.walls + {target}))
    case Go(m) =>
      var here := if p.role == Police then s.cop else s.thief;
      if !LegalMove(t.grid, s.walls, here, m) then Err(IllegalMove)
      else if p.role == Police then Ok(s.(cop := Applied(m, here)))
      else Ok(s.(thief := Applied(m, here)))
  }

  /** The verdict after an enacted action: law captures are strict, a landing is
      provisional, the thief's step ticks the clock. */
  function Judge(t: Terms, s: Replay, p: Payload): Replay
    requires p.Step?
  {
    var sealed := LawCapture(t.grid, s.walls, s.thief);
    if p.role == Police then
      if sealed then s.(outcome := Capture, pending := None)
      else if s.cop == s.thief then s.(outcome := Capture, pending := Some(Evidence(p.step, s.cop)))
      else s
    else if sealed then s.(outcome := Capture)
    else
      var turns := s.turns + 1;
      s.(turns := turns,
         outcome := if turns >= t.rules.threshold || turns >= t.rules.maxMoves then Survival else s.outcome)
  }

  function ReplayStep(t: Terms, sub: Option<int>, s: Replay, e: Entry): Result<Replay>
    requires e.payload.Step?
  {
    var p := e.payload;
    if sub.Some? && p.subGame != sub.value then Err(GameRule)
    else if s.outcome != Ongoing && Closure(p) then Ok(s.(pending := None))
    else if s.outcome != Ongoing && s.pending.None? then Err(GameRule)
    else
      var s1 := if s.outcome == Ongoing then s else s.(disputed := s.pending, pending := None, outcome := Ongoing);
      var s2 :- Enact(t, s1, p);
      if p.role == Police && e.claim.Some? && e.claim.value != s2.cop then Err(GameRule)
      else Ok(Judge(t, s2, p))
  }

  function Continue(t: Terms, sub: Option<int>, r: Result<Replay>, e: Entry): Result<Replay>
    requires e.payload.Step?
  {
    if r.Err? then r else ReplayStep(t, sub, r.value, e)
  }

  function ReplayAll(t: Terms, sub: Option<int>, es: seq<Entry>): Result<Replay>
    requires AllSteps(es)
  {
    if es == [] then Ok(Opening(t))
    else Continue(t, sub, ReplayAll(t, sub, es[..|es| - 1]), es[|es| - 1])
  }

  function Verdict(s: Replay): Result<Reconstruction> {
    if s.outcome == Ongoing then Err(GameRule)
    else Ok(Reconstruction(EndDigest(s.cop, s.thief, s.walls, s.turns, s.outcome), s.outcome, s.turns, s.disputed))
  }

  function Reconstruct(own: seq<Record>, theirs: seq<Record>, t: Terms, sub: Option<int>): Result<Reconstruction> {
    var es :- Entries(own + theirs);
    var s :- ReplayAll(t, sub, SortEntries(es));
    Verdict(s)
  }

  /** The first refusal stands. */
  lemma {:induction false} FirstError(t: Terms, sub: Option<int>, es: seq<Entry>, n: nat)
    requires AllSteps(es) && n <= |es| && ReplayAll(t, sub, es[..n]).Err?
    ensures ReplayAll(t, sub, es) == ReplayAll(t, sub, es[..n])
  {
    if n < |es| {
      assert es[..|es| - 1][..n] == es[..n];
      FirstError(t, sub, es[..|es| - 1], n);
    } else {
      assert es[..n] == es;
    }
  }

  lemma ReplaySnoc(t: Terms, sub: Option<int>, es: seq<Entry>, e: Entry)
    requires AllSteps(es) && e.payload.Step?
    ensures AllSteps(es + [e])
    ensures ReplayAll(t, sub, es + [e]) == Continue(t, sub, ReplayAll(t, sub, es), e)
  {
    assert (es + [e])[..|es|] == es;
  }

  /** _apply: the revealed action updates the board or a position, or is refused. */
  method Apply(p: Payload, t: Terms, board: Board, cop: Cell, thief: Cell, ghost s: Replay)
    returns (r: Result<(Cell, Cell)>)
    requires p.Step? && board.grid == t.grid
    requires s.walls == board.walls && s.cop == cop && s.thief == thief
    modifies board
    ensures match Enact(t, s, p)
      case Err(e) => r == Err(e)
      case Ok(s') => r == Ok((s'.cop, s'.thief)) && s' == s.(walls := board.walls, cop := s'.cop, thief := s'.thief)
  {
    match p.action
    case Wall(target) =>
      if p.role != Police {
        return Err(GameRule);
      }
      var _ :- board.PlaceWall(t.rules, cop, target);
      return Ok((cop, thief));
    case Go(m) =>
      var dest :- ApplyMove(t.grid, board.walls, if p.role == Police then cop else thief, m);
      return Ok(if p.role == Police then (dest, thief) else (cop, dest));
  }

  /** The verdict after the action: law capture, provisional landing, or the clock. */
  method Settle(p: Payload, t: Terms, walls: set<Cell>, cop: Cell, thief: Cell,
                turns: nat, outcome: Outcome, pending: Option<Evidence>, ghost disputed: Option<Evidence>)
    returns (turns': nat, outcome': Outcome, pending': Option<Evidence>)
    requires p.Step?
    ensures Replay(walls, cop, thief, turns', outcome', pending', disputed) ==
            Judge(t, Replay(walls, cop, thief, turns, outcome, pending, disputed), p)
  {
    turns', outcome', pending' := turns, outcome, pending;
    var sealed := LawCapture(t.grid, walls, thief);
    if p.role == Police {
      if sealed {
        outcome', pending' := Capture, None;
      } else if cop == thief {
        outcome', pending' := Capture, Some(Evidence(p.step, cop));
      }
    } else if sealed {
      outcome' := Capture;
    } else {
      turns' := turns + 1;
      if turns' >= t.rules.threshold || turns' >= t.rules.maxMoves {
        outcome' := Survival;
      }
    }
  }

  /** reconstruct as the program runs it: one loop over the sorted entries that
      updates the board, both positions, the clock and the verdict. */
  method ReconstructGame(own: seq<Record>, theirs: seq<Record>, t: Terms, sub: Option<int>)
    returns (r: Result<Reconstruction>)
    requires t.grid >= 2
    ensures r == Reconstruct(own, theirs, t, sub)
  {
    var es :- Entries(own + theirs);
    es := SortEntries(es);
    var board := new Board(t.grid);
    var cop, thief := t.copStart, t.thiefStart;
    var turns, outcome := 0, Ongoing;
    var pending: Option<Evidence>, disputed: Option<Evidence> := None, None;
    for i := 0 to |es|
      invariant board.grid == t.grid && fresh(board)
      invariant ReplayAll(t, sub, es[..i]) == Ok(Replay(board.walls, cop, thief, turns, outcome, pending, disputed))
    {
      var p := es[i].payload;
      ghost var before := Replay(board.walls, cop, thief, turns, outcome, pending, disputed);
      StepShown(t, sub, es, i, before);
      if sub.Some? && p.subGame != sub.value {
        return Err(GameRule);
      }
      if outcome != Ongoing {
        if Closure(p) {
          pending := None;
          continue;
        }
        if pending.None? {
          return Err(GameRule);
        }
        disputed, pending, outcome := pending, None, Ongoing;
      }
      ghost var reopened := Replay(board.walls, cop, thief, turns, outcome, pending, disputed);
      var moved := Apply(p, t, board, cop, thief, reopened);
      if moved.Err? {
        return Err(moved.error);
      }
      cop, thief := moved.value.0, moved.value.1;
      assert Enact(t, reopened, p) == Ok(Replay(board.walls, cop, thief, turns, outcome, pending, disputed));
      if p.role == Police && es[i].claim.Some? && es[i].claim.value != cop {
        return Err(GameRule);
      }
      turns, outcome, pending := Settle(p, t, board.walls, cop, thief, turns, outcome, pending, disputed);
    }
    assert es[..|es|] == es;
    return Verdict(Replay(board.walls, cop, thief, turns, outcome, pending, disputed));
  }

  /** One turn of the loop is one replay step, and a refusal is final. */
  lemma StepShown(t: Terms, sub: Option<int>, es: seq<Entry>, i: nat, s: Replay)
    requires AllSteps(es) && i < |es| && ReplayAll(t, sub, es[..i]) == Ok(s)
    ensures ReplayAll(t, sub, es[..i + 1]) == ReplayStep(t, sub, s, es[i])
    ensures ReplayStep(t, sub, s, es[i]).Err? ==> ReplayAll(t, sub, es) == ReplayStep(t, sub, s, es[i])
  {
    assert es[..i + 1] == es[..i] + [es[i]];
    ReplaySnoc(t, sub, es[..i], es[i]);
    if ReplayStep(t, sub, s, es[i]).Err? {
      FirstError(t, sub, es, i + 1);
    }
  }

  /** With distinct (step, role) keys the verdict cannot depend on record order. */
  lemma OrderFree(a: seq<Entry>, b: seq<Entry>, t: Terms, sub: Option<int>)
    requires AllSteps(a) && DistinctBy(a, Key) && DistinctBy(b, Key)
    requires forall e :: e in a <==> e in b
    ensures AllSteps(b) && ReplayAll(t, sub, SortEntries(a)) == ReplayAll(t, sub, SortEntries(b))
  {
    forall i | 0 <= i < |b| ensures b[i].payload.Step? {
      assert b[i] in a;
    }
    OrderIndependent(a, b, Key);
  }
}
