/** The dispute check after a game: does some position the rival reveals lie on a wall,
    or in a pocket, that stood when it was held? */
module Dispute {
  import opened Primitives
  import opened Boards
  import opened Scent
  import opened OwnState
  import opened Messages
  import opened Perception
  import opened Sorting
  import opened Protocol
  import opened StepEffects
  import opened Agreement

  /** A wall and the step at which it was placed. */
  datatype Placement = Placement(step: int, cell: Cell)

  /** What a foreign record reveals: its step number and its author's position, where
      it carries them in readable form. */
  datatype Reveal = Reveal(step: Option<int>, position: Option<Cell>)

  datatype Finding = Finding(step: int, cell: Cell, covered: bool, walls: set<Cell>)

  predicate PlacesBarrier(r: Record) { r.payload.Some? && r.payload.value.Step? && r.payload.value.action.Wall? }

  function Timeline(rs: seq<Record>): seq<Placement> {
    if rs == [] then []
    else
      var last := rs[|rs| - 1];
      Timeline(rs[..|rs| - 1]) +
      if PlacesBarrier(last) then [Placement(last.payload.value.step, last.payload.value.action.cell)] else []
  }

  method OwnBarrierTimeline(rs: seq<Record>) returns (timeline: seq<Placement>)
    ensures timeline == Timeline(rs)
  {
    timeline := [];
    for k := 0 to |rs|
      invariant timeline == Timeline(rs[..k])
    {
      assert rs[..k + 1][..k] == rs[..k];
      if PlacesBarrier(rs[k]) {
        timeline := timeline + [Placement(rs[k].payload.value.step, rs[k].payload.value.action.cell)];
      }
    }
    assert rs[..|rs|] == rs;
  }

  /** The cells walled no later than `step`. */
  function WallsBy(timeline: seq<Placement>, step: int): (s: set<Cell>)
    ensures forall c :: c in s <==> exists i :: 0 <= i < |timeline| && timeline[i].step <= step && timeline[i].cell == c
  {
    set i | 0 <= i < |timeline| && timeline[i].step <= step :: timeline[i].cell
  }

  predicate Accuses(timeline: seq<Placement>, g: nat, r: Reveal) {
    r.step.Some? && r.position.Some? && LawCapture(g, WallsBy(timeline, r.step.value), r.position.value)
  }

  function FindingOf(timeline: seq<Placement>, r: Reveal): Finding
    requires r.step.Some? && r.position.Some?
  {
    var walls := WallsBy(timeline, r.step.value);
    Finding(r.step.value, r.position.value, r.position.value in walls, walls)
  }

  function StepOf(r: Reveal): int { if r.step.Some? then r.step.value else 0 }

  function WithStep(rs: seq<Reveal>): (n: seq<Reveal>)
    ensures forall r :: r in n <==> r in rs && r.step.Some?
  {
    if rs == [] then []
    else
      assert rs == [rs[0]] + rs[1..];
      (if rs[0].step.Some? then [rs[0]] else []) + WithStep(rs[1..])
  }

  function InStepOrder(theirs: seq<Reveal>): (o: seq<Reveal>)
    ensures forall i :: 0 <= i < |o| ==> o[i].step.Some?
  {
    SameMembers(WithStep(theirs), StepOf);
    var o := Sort(WithStep(theirs), StepOf);
    assert forall i :: 0 <= i < |o| ==> o[i] in o;
    o
  }

  /** `r` accuses, and nothing earlier does. */
  ghost predicate FirstAccused(theirs: seq<Reveal>, timeline: seq<Placement>, g: nat, r: Reveal) {
    && r in theirs && Accuses(timeline, g, r)
    && forall q :: q in theirs && Accuses(timeline, g, q) ==> r.step.value <= q.step.value
  }

  lemma EarliestInOrder(theirs: seq<Reveal>, timeline: seq<Placement>, g: nat, k: nat)
    requires k < |InStepOrder(theirs)| && Accuses(timeline, g, InStepOrder(theirs)[k])
    requires forall i :: 0 <= i < k ==> !Accuses(timeline, g, InStepOrder(theirs)[i])
    ensures FirstAccused(theirs, timeline, g, InStepOrder(theirs)[k])
  {
    var ordered := InStepOrder(theirs);
    SameMembers(WithStep(theirs), StepOf);
    assert ordered[k] in ordered;
    forall q | q in theirs && Accuses(timeline, g, q) ensures ordered[k].step.value <= q.step.value {
      assert q in WithStep(theirs);
      assert q in ordered;
      var i :| 0 <= i < |ordered| && ordered[i] == q;
      assert i == k || StepOf(ordered[k]) <= StepOf(ordered[i]);
    }
  }

  lemma NobodyInOrder(theirs: seq<Reveal>, timeline: seq<Placement>, g: nat)
    requires forall i :: 0 <= i < |InStepOrder(theirs)| ==> !Accuses(timeline, g, InStepOrder(theirs)[i])
    ensures forall r :: r in theirs ==> !Accuses(timeline, g, r)
  {
    SameMembers(WithStep(theirs), StepOf);
    forall r | r in theirs ensures !Accuses(timeline, g, r) {
      if r.step.Some? {
        assert r in WithStep(theirs);
        assert r in InStepOrder(theirs);
      }
    }
  }

  /** What the check says of a list of reveals: nothing after a capture, otherwise the
      earliest accused reveal, or nothing when none is accused. */
  ghost predicate Finds(
    theirs: seq<Reveal>, timeline: seq<Placement>, g: nat, outcome: Option<Outcome>, found: Option<Finding>)
  {
    && (outcome == Some(Capture) ==> found == None)
    && (outcome != Some(Capture) && found.None? ==> forall r :: r in theirs ==> !Accuses(timeline, g, r))
    && (found.Some? ==> exists r :: FirstAccused(theirs, timeline, g, r) && found.value == FindingOf(timeline, r))
    && (found.Some? ==> SaysWhich(theirs, timeline, g, found.value))
  }

  /** A finding names the step and the cell of a reveal, the walls placed by then, and
      which rule they break: the cell lies under a wall, or it has no open neighbour. */
  ghost predicate SaysWhich(theirs: seq<Reveal>, timeline: seq<Placement>, g: nat, f: Finding) {
    && Reveal(Some(f.step), Some(f.cell)) in theirs
    && (forall c :: c in f.walls <==>
          exists i :: 0 <= i < |timeline| && timeline[i].step <= f.step && timeline[i].cell == c)
    && (f.covered <==> f.cell in f.walls)
    && (!f.covered ==> forall d :: Distance(f.cell, d) == 1 ==> !Passable(g, f.walls, d))
  }

  lemma FindingSays(theirs: seq<Reveal>, timeline: seq<Placement>, g: nat, r: Reveal)
    requires FirstAccused(theirs, timeline, g, r)
    ensures SaysWhich(theirs, timeline, g, FindingOf(timeline, r))
  {
    var f := FindingOf(timeline, r);
    if !f.covered {
      forall d | Distance(f.cell, d) == 1 ensures !Passable(g, f.walls, d) {
        assert d == Applied(N, f.cell) || d == Applied(S, f.cell) || d == Applied(E, f.cell) || d == Applied(W, f.cell);
      }
    }
  }

  /** unconceded_capture: the earliest step whose walls cover or seal the revealed
      position, unless the game already ended in capture. */
  method UnconcededCapture(theirs: seq<Reveal>, timeline: seq<Placement>, g: nat, outcome: Option<Outcome>)
    returns (found: Option<Finding>)
    ensures Finds(theirs, timeline, g, outcome, found)
  {
    hide InStepOrder, FirstAccused, Surrounded, SaysWhich;
    if outcome == Some(Capture) {
      return None;
    }
    var ordered := InStepOrder(theirs);
    for k := 0 to |ordered|
      invariant forall i :: 0 <= i < k ==> !Accuses(timeline, g, ordered[i])
    {
      var r := ordered[k];
      if r.position.Some? {
        var walls := WallsBy(timeline, r.step.value);
        if r.position.value in walls || Surrounded(g, walls, r.position.value) {
          EarliestInOrder(theirs, timeline, g, k);
          FindingSays(theirs, timeline, g, r);
          return Some(Finding(r.step.value, r.position.value, r.position.value in walls, walls));
        }
      }
    }
    NobodyInOrder(theirs, timeline, g);
    return None;
  }

  // --- honest runs ------------------------------------------------------------

  /** The walls of every earlier step spared the thief, and so do those of the last one
      if it survived. */
  ghost predicate Spared(g: nat, timeline: seq<Placement>, placed: nat, walls: set<Cell>, t: Own) {
    var n := |t.boundary|;
    && n == t.turns && (n > 0 ==> t.boundary[n - 1] == t.cell)
    && (forall i :: 0 <= i < |timeline| ==> timeline[i].step <= placed)
    && WallsBy(timeline, placed) == walls
    && (t.outcome == Survival ==> !LawCapture(g, walls, t.cell))
    && forall k :: 0 <= k < n - 1 ==> !LawCapture(g, WallsBy(timeline, k + 1), t.boundary[k])
  }

  ghost predicate DisputeInv(u: Setup, s: Sys) {
    Spared(u.terms.grid, Timeline(s.police.ownRecords), s.police.myStep, s.police.own.walls, s.thief.own)
  }

  lemma StartDispute(u: Setup)
    requires u.Valid()
    ensures DisputeInv(u, Start(u))
  {
    var own := Start(u).police.ownRecords;
    assert Timeline(own[..0]) == [];
  }

  lemma LaterWalls(timeline: seq<Placement>, step: int, last: int)
    requires forall i :: 0 <= i < |timeline| ==> timeline[i].step <= last
    requires last <= step
    ensures WallsBy(timeline, step) == WallsBy(timeline, last)
  {
  }

  lemma OnePlacementMore(timeline: seq<Placement>, p: Placement, step: int)
    ensures WallsBy(timeline + [p], step) == WallsBy(timeline, step) + (if p.step <= step then {p.cell} else {})
  {
    var t' := timeline + [p];
    forall c ensures c in WallsBy(t', step) <==> c in WallsBy(timeline, step) || (p.step <= step && c == p.cell) {
      if c in WallsBy(timeline, step) {
        var i :| 0 <= i < |timeline| && timeline[i].step <= step && timeline[i].cell == c;
        assert t'[i].cell == c;
      }
      if p.step <= step && c == p.cell {
        assert t'[|timeline|].cell == c;
      }
    }
  }

  /** The thief closes a round in which it was not sealed. */
  lemma SparedOneMore(g: nat, timeline: seq<Placement>, placed: nat, walls: set<Cell>, t: Own, t': Own)
    requires Spared(g, timeline, placed, walls, t) && t.turns == placed
    requires |t.boundary| > 0 ==> !LawCapture(g, walls, t.cell)
    requires t'.boundary == t.boundary + [t'.cell] && t'.turns == t.turns + 1 && !LawCapture(g, walls, t'.cell)
    ensures Spared(g, timeline, placed, walls, t')
  {
  }

  lemma DisputeThiefActs(u: Setup, s: Sys, s': Sys, a: Action, m: Message)
    requires Frame(u, s) && ThiefToMove(u, s) && DisputeInv(u, s) && s'.Valid() && ThiefActed(s, s', a, m)
    ensures DisputeInv(u, s')
  {
    hide Timeline, Spared, Seals, Updated, Serialize, Surrounded, StaysUnasked;
    SparedOneMore(u.terms.grid, Timeline(s.police.ownRecords), s.police.myStep, s.police.own.walls, s.thief.own,
      s'.thief.own);
  }

  /** Our own timeline grows by the barrier, if one was sealed. */
  lemma TimelineGrows(own: seq<Record>, p: Payload, nonce: nat)
    requires p.Step?
    ensures Timeline(own + [Sealed(p, nonce)]) ==
      Timeline(own) + (if p.action.Wall? then [Placement(p.step, p.action.cell)] else [])
  {
    assert (own + [Sealed(p, nonce)])[..|own|] == own;
  }

  /** A later placement constrains no earlier step. */
  lemma LaterPlacement(timeline: seq<Placement>, p: Placement, k: int)
    requires k < p.step
    ensures WallsBy(timeline + [p], k) == WallsBy(timeline, k)
  {
    OnePlacementMore(timeline, p, k);
  }

  lemma SparedMove(g: nat, timeline: seq<Placement>, placed: nat, walls: set<Cell>, t: Own)
    requires Spared(g, timeline, placed, walls, t)
    ensures Spared(g, timeline, placed + 1, walls, t)
  {
    LaterWalls(timeline, placed + 1, placed);
  }

  lemma SparedWall(g: nat, timeline: seq<Placement>, placed: nat, walls: set<Cell>, t: Own, c: Cell)
    requires Spared(g, timeline, placed, walls, t) && t.turns == placed + 1 && t.outcome == Ongoing
    ensures Spared(g, timeline + [Placement(placed + 1, c)], placed + 1, walls + {c}, t)
  {
    var p := Placement(placed + 1, c);
    LaterWalls(timeline, placed + 1, placed);
    OnePlacementMore(timeline, p, placed + 1);
    forall k | 0 <= k < placed ensures !LawCapture(g, WallsBy(timeline + [p], k + 1), t.boundary[k]) {
      LaterPlacement(timeline, p, k + 1);
    }
  }

  lemma DisputePoliceActs(u: Setup, s: Sys, s': Sys, a: Action, m: Message)
    requires Frame(u, s) && PoliceToMove(u, s) && DisputeInv(u, s) && s'.Valid() && PoliceActed(s, s', a, m)
    ensures DisputeInv(u, s')
  {
    hide Timeline, Spared, Serialize, LegalMove, LegalWall;
    var timeline, p, t := Timeline(s.police.ownRecords), s.police, s.thief.own;
    TimelineGrows(p.ownRecords, m.commit.payload, m.commit.nonce);
    if a.Wall? {
      SparedWall(u.terms.grid, timeline, p.myStep, p.own.walls, t, a.cell);
    } else {
      assert timeline + [] == timeline;
      SparedMove(u.terms.grid, timeline, p.myStep, p.own.walls, t);
    }
  }

  lemma SparedAnyway(g: nat, timeline: seq<Placement>, placed: nat, walls: set<Cell>, t: Own, t': Own)
    requires Spared(g, timeline, placed, walls, t)
    requires t'.boundary == t.boundary && t'.turns == t.turns && t'.cell == t.cell
    requires t'.outcome == Survival ==> t.outcome == Survival
    ensures Spared(g, timeline, placed, walls, t')
  {
  }

  /** Hearing a message changes nothing that the dispute check reads. */
  lemma DisputePoliceHears(u: Setup, s: Sys, s': Sys)
    requires Frame(u, s) && DisputeInv(u, s) && s'.Valid() && (StepHeard(s, s') || ConcessionHeard(s, s'))
    ensures DisputeInv(u, s')
  {
    hide Timeline, Spared, Updated, Dense, Live, Observed;
  }

  lemma DisputeThiefHears(u: Setup, s: Sys, s': Sys, closing: Option<Message>)
    requires Frame(u, s) && ThiefToHear(u, s) && DisputeInv(u, s) && s'.Valid() && PoliceHeard(s, s', closing)
    ensures DisputeInv(u, s')
  {
    hide Timeline, Spared, Serialize, Seals, Dense, Live, Observed;
    SparedAnyway(u.terms.grid, Timeline(s.police.ownRecords), s.police.myStep, s.police.own.walls, s.thief.own,
      s'.thief.own);
  }

  lemma NextDispute(u: Setup, s: Sys, l: Label)
    requires Inv(u, s) && DisputeInv(u, s) && Next(s, l).Some?
    ensures DisputeInv(u, Next(s, l).value)
  {
    hide *;
    var s', m, closing := NextStepped(u, s, l);
    if ThiefToMove(u, s) {
      DisputeThiefActs(u, s, s', l.choice.action, m);
    } else if PoliceToMove(u, s) {
      DisputePoliceActs(u, s, s', l.choice.action, m);
    } else if ThiefToHear(u, s) {
      DisputeThiefHears(u, s, s', closing);
    } else {
      DisputePoliceHears(u, s, s');
    }
  }

  lemma {:induction false} RunDispute(u: Setup, s: Sys, labels: seq<Label>)
    requires Inv(u, s) && DisputeInv(u, s) && Run(s, labels).Some?
    ensures DisputeInv(u, Run(s, labels).value)
    decreases labels
  {
    if labels != [] {
      NextInv(u, s, labels[0]);
      NextDispute(u, s, labels[0]);
      RunDispute(u, Next(s, labels[0]).value, labels[1..]);
    }
  }

  /** The reveal an honest thief makes of its k-th step: where it stood after it. */
  function HonestReveal(boundary: seq<Cell>, k: nat): Reveal
    requires k < |boundary|
  {
    Reveal(Some(k + 1), Some(boundary[k]))
  }

  lemma AccusedAtTheEnd(u: Setup, s: Sys, k: nat)
    requires Inv(u, s) && DisputeInv(u, s) && s.Finished() && k < |s.thief.own.boundary|
    ensures var p, t, timeline := s.police.own, s.thief.own, Timeline(s.police.ownRecords);
      Accuses(timeline, u.terms.grid, HonestReveal(t.boundary, k)) <==>
        k == |t.boundary| - 1 && LawCapture(u.terms.grid, p.walls, t.cell)
    ensures s.police.own.outcome == Survival ==> !LawCapture(u.terms.grid, s.police.own.walls, s.thief.own.cell)
  {
    assert s.police.myStep <= s.thief.own.turns;
    LaterWalls(Timeline(s.police.ownRecords), |s.thief.own.boundary|, s.police.myStep);
  }

  /** No false accusation, and no missed one: in a finished game an honest reveal
      accuses exactly when it is the thief's last and the walls really decided the
      game there.  So a survivor is never accused. */
  lemma AccusedExactlyWhenSealed(u: Setup, labels: seq<Label>, k: nat)
    requires u.Valid() && Run(Start(u), labels).Some? && Run(Start(u), labels).value.Finished()
    requires k < |Run(Start(u), labels).value.thief.own.boundary|
    ensures var s := Run(Start(u), labels).value;
      var p, t, timeline := s.police.own, s.thief.own, Timeline(s.police.ownRecords);
      && (Accuses(timeline, u.terms.grid, HonestReveal(t.boundary, k)) <==>
            k == |t.boundary| - 1 && LawCapture(u.terms.grid, p.walls, t.cell))
      && (p.outcome == Survival ==> !Accuses(timeline, u.terms.grid, HonestReveal(t.boundary, k)))
  {
    StartInv(u);
    StartDispute(u);
    RunInv(u, Start(u), labels);
    RunDispute(u, Start(u), labels);
    AccusedAtTheEnd(u, Run(Start(u), labels).value, k);
  }

  /** A reveal that an honest thief's records give: one of its boundary cells at its
      step, or nothing readable. */
  ghost predicate Honest(boundary: seq<Cell>, r: Reveal) {
    r.step.Some? && r.position.Some? ==> exists k :: 0 <= k < |boundary| && r == HonestReveal(boundary, k)
  }

  /** The check over any honest reveals of a finished honest run, in any order and with
      any of them missing, finds nothing. */
  lemma HonestRevealsFindNothing(u: Setup, labels: seq<Label>, theirs: seq<Reveal>, found: Option<Finding>)
    requires u.Valid() && Run(Start(u), labels).Some? && Run(Start(u), labels).value.Finished()
    requires var s := Run(Start(u), labels).value;
      && (forall r :: r in theirs ==> Honest(s.thief.own.boundary, r))
      && Finds(theirs, Timeline(s.police.ownRecords), u.terms.grid, Some(s.police.own.outcome), found)
    ensures found == None
  {
    hide Run, Inv;
    var s := Run(Start(u), labels).value;
    StartInv(u);
    RunInv(u, Start(u), labels);
    SidesAgree(u, s);
    if found.Some? {
      var r :| FirstAccused(theirs, Timeline(s.police.ownRecords), u.terms.grid, r);
      var k :| 0 <= k < |s.thief.own.boundary| && r == HonestReveal(s.thief.own.boundary, k);
      AccusedExactlyWhenSealed(u, labels, k);
      assert false;
    }
  }
}
