/** No false refusal: over every honest run each received frame is one lawful
    update after the last, so it is accepted, and the trail head, when the law
    singles one out, is the rival's true cell. */
module HonestScent {
  import opened Primitives
  import opened Boards
  import opened Scent
  import opened Forensics
  import opened Perception
  import opened OwnState
  import opened Messages
  import opened Protocol
  import opened StepEffects
  import opened Agreement

  /** A peer's own field is the replay of its boundary cells, never further from
      its start than the turns it has played. */
  ghost predicate OwnTrail(o: Own, start: Cell, moved: nat) {
    && o.scent == Trail(o.grid, o.boundary) && |o.boundary| == o.turns
    && Walk(o.grid, start, o.boundary) && Distance(o.cell, start) <= moved
  }

  /** What a peer has seen of the rival's first `n` boundaries, all accepted. */
  ghost predicate Watched(t: Trust, g: nat, start: Cell, boundary: seq<Cell>, n: nat) {
    && Clean(t) && t.grid == g && t.anchor == Some(start) && t.age == n <= |boundary|
    && t.prev == (if n == 0 then None else Some(Trail(g, boundary[..n])))
    && |t.track| == n
    && forall i :: 0 <= i < n && t.track[i].Some? ==> t.track[i].value == boundary[i]
  }

  ghost predicate ScentInv(u: Setup, s: Sys) {
    && OwnTrail(s.thief.own, u.terms.thiefStart, s.thief.own.turns)
    && OwnTrail(s.police.own, u.terms.copStart, s.police.myStep)
    && Watched(s.police.trust, u.terms.grid, u.terms.thiefStart, s.thief.own.boundary, s.police.own.turns)
    && Watched(s.thief.trust, u.terms.grid, u.terms.copStart, s.police.own.boundary, s.thief.theirStep)
  }

  lemma StartScent(u: Setup)
    requires u.Valid()
    ensures ScentInv(u, Start(u))
  {
  }

  lemma WatchedStep(t: Trust, t': Trust, g: nat, start: Cell, boundary: seq<Cell>, n: nat, head: Option<Cell>)
    requires Watched(t, g, start, boundary, n) && |boundary| == n + 1
    requires Clean(t') && t'.grid == g && t'.anchor == Some(start) && t'.age == n + 1
    requires t'.prev == Some(Trail(g, boundary))
    requires t'.track == t.track + [head] && (head.Some? ==> head.value == boundary[n])
    ensures Watched(t', g, start, boundary, n + 1)
  {
    assert boundary[..n + 1] == boundary;
  }

  /** One more boundary of the rival, received. */
  lemma WatchOneMore(t: Trust, g: nat, start: Cell, boundary: seq<Cell>, n: nat, walls: set<Cell>)
    requires Watched(t, g, start, boundary, n) && |boundary| == n + 1 && Walk(g, start, boundary)
    ensures t.Valid() && Watched(Observed(t, Trail(g, boundary), walls), g, start, boundary, n + 1)
  {
    var head := HonestFrameAccepted(t, start, boundary, walls);
    WatchedStep(t, Observed(t, Trail(g, boundary), walls), g, start, boundary, n, head);
  }

  lemma WatchedGrows(t: Trust, g: nat, start: Cell, boundary: seq<Cell>, n: nat, c: Cell)
    requires Watched(t, g, start, boundary, n)
    ensures Watched(t, g, start, boundary + [c], n)
  {
    assert (boundary + [c])[..n] == boundary[..n];
  }

  lemma CloseKeepsTrail(o: Own, start: Cell, moved: nat)
    requires o.Valid() && OwnTrail(o, start, moved) && moved <= o.turns + 1 && InBounds(o.grid, o.cell)
    ensures OwnTrail(CloseTurn(o), start, moved)
  {
    TrailSnoc(o.grid, o.boundary, o.cell);
  }

  lemma TrailKept(o: Own, o': Own, start: Cell, moved: nat)
    requires o.Valid() && o'.Valid() && OwnTrail(o, start, moved)
    requires o'.grid == o.grid && o'.cell == o.cell && o'.turns == o.turns && o'.boundary == o.boundary
    requires o'.scent == o.scent
    ensures OwnTrail(o', start, moved)
  {
  }

  lemma StepTrail(o: Own, start: Cell, move: Move)
    requires o.Valid() && OwnTrail(o, start, o.turns) && InBounds(o.grid, Applied(move, o.cell))
    ensures OwnTrail(CloseTurn(o.(cell := Applied(move, o.cell), token := Police)), start, o.turns + 1)
  {
    StepIsShort(move, o.cell, start);
    CloseKeepsTrail(o.(cell := Applied(move, o.cell), token := Police), start, o.turns + 1);
  }

  lemma ThiefActScent(u: Setup, s: Sys, s': Sys, a: Action, m: Message)
    requires Frame(u, s) && ThiefToMove(u, s) && ScentInv(u, s) && s'.Valid() && ThiefActed(s, s', a, m)
    ensures ScentInv(u, s')
  {
    hide OwnTrail, Watched, Trail, Walk, Distance, Updated, Serialize, Surrounded, StaysUnasked, Seals;
    var t, start := s.thief.own, u.terms.thiefStart;
    StepTrail(t, start, a.move);
    TrailKept(CloseTurn(t.(cell := Applied(a.move, t.cell), token := Police)), s'.thief.own, start, t.turns + 1);
    WatchedGrows(s.police.trust, u.terms.grid, start, t.boundary, s.police.own.turns, s'.thief.own.cell);
  }

  lemma PoliceActScent(u: Setup, s: Sys, s': Sys, a: Action, m: Message)
    requires Frame(u, s) && PoliceToMove(u, s) && ScentInv(u, s) && s'.Valid() && PoliceActed(s, s', a, m)
    ensures ScentInv(u, s')
  {
    if a.Go? {
      StepIsShort(a.move, s.police.own.cell, u.terms.copStart);
    }
  }

  /** What an honest peer sends is its trail. */
  lemma SentIsTrail(o: Own, start: Cell, moved: nat)
    requires o.Valid() && OwnTrail(o, start, moved)
    ensures Dense(o.grid, Serialize(o.grid, o.scent)) == Trail(o.grid, o.boundary)
    ensures |o.boundary| == o.turns && Walk(o.grid, start, o.boundary)
  {
    TrailCrosses(o.grid, o.boundary);
  }

  lemma ThiefHearScent(u: Setup, s: Sys, s': Sys, closing: Option<Message>)
    requires Frame(u, s) && ThiefToHear(u, s) && ScentInv(u, s) && s'.Valid() && PoliceHeard(s, s', closing)
    ensures ScentInv(u, s')
  {
    hide OwnTrail, Watched, Trail, Walk, Distance, Observed, Dense, Serialize, Seals, Live, Caught;
    var p, t, start := s.police.own, s.thief.own, u.terms.copStart;
    SentIsTrail(p, start, s.police.myStep);
    WatchOneMore(s.thief.trust, p.grid, start, p.boundary, s.thief.theirStep, AfterPolice(t, s.toThief[0]).walls);
    TrailKept(t, s'.thief.own, u.terms.thiefStart, t.turns);
  }

  lemma PoliceHearScent(u: Setup, s: Sys, s': Sys)
    requires Frame(u, s) && PoliceToHear(u, s) && ScentInv(u, s) && s'.Valid() && StepHeard(s, s')
    ensures ScentInv(u, s')
  {
    hide OwnTrail, Watched, Trail, Walk, Distance, Observed, Dense, Serialize, Live;
    var p, t := s.police.own, s.thief.own;
    SentIsTrail(t, u.terms.thiefStart, t.turns);
    WatchOneMore(s.police.trust, t.grid, u.terms.thiefStart, t.boundary, p.turns, p.walls);
    CloseKeepsTrail(p, u.terms.copStart, s.police.myStep);
    TrailKept(CloseTurn(p), s'.police.own, u.terms.copStart, s.police.myStep);
    WatchedGrows(s.thief.trust, p.grid, u.terms.copStart, p.boundary, s.thief.theirStep, p.cell);
  }

  lemma ConcessionScent(u: Setup, s: Sys, s': Sys)
    requires ScentInv(u, s) && s.Valid() && s'.Valid() && ConcessionHeard(s, s')
    ensures ScentInv(u, s')
  {
    hide Observed, Dense, Serialize, Trail, Walk;
  }

  lemma NextScent(u: Setup, s: Sys, l: Label)
    requires Inv(u, s) && ScentInv(u, s) && Next(s, l).Some?
    ensures ScentInv(u, Next(s, l).value)
  {
    hide *;
    var s', m, closing := NextStepped(u, s, l);
    if ThiefToMove(u, s) {
      ThiefActScent(u, s, s', l.choice.action, m);
    } else if PoliceToMove(u, s) {
      PoliceActScent(u, s, s', l.choice.action, m);
    } else if ThiefToHear(u, s) {
      ThiefHearScent(u, s, s', closing);
    } else if PoliceToHear(u, s) {
      PoliceHearScent(u, s, s');
    } else {
      ConcessionScent(u, s, s');
    }
  }

  lemma {:induction false} RunScent(u: Setup, s: Sys, labels: seq<Label>)
    requires Inv(u, s) && ScentInv(u, s) && Run(s, labels).Some?
    ensures ScentInv(u, Run(s, labels).value)
    decreases labels
  {
    if labels != [] {
      NextInv(u, s, labels[0]);
      NextScent(u, s, labels[0]);
      RunScent(u, Next(s, labels[0]).value, labels[1..]);
    }
  }

  /** In every state of every honest run neither side has refused a frame or lost
      trust, and every trail head it pinned is a cell the rival really emitted
      from, at the turn it emitted there. */
  lemma NoFalseRefusal(u: Setup, labels: seq<Label>)
    requires u.Valid() && Run(Start(u), labels).Some?
    ensures var s := Run(Start(u), labels).value;
      && s.police.trust.trusted && s.police.trust.refused == 0 && s.police.trust.flooredSteps == []
      && s.thief.trust.trusted && s.thief.trust.refused == 0 && s.thief.trust.flooredSteps == []
      && (forall i :: 0 <= i < |s.police.trust.track| && s.police.trust.track[i].Some? ==>
            i < |s.thief.own.boundary| && s.police.trust.track[i].value == s.thief.own.boundary[i])
      && (forall i :: 0 <= i < |s.thief.trust.track| && s.thief.trust.track[i].Some? ==>
            i < |s.police.own.boundary| && s.thief.trust.track[i].value == s.police.own.boundary[i])
  {
    StartInv(u);
    StartScent(u);
    RunScent(u, Start(u), labels);
  }
}
