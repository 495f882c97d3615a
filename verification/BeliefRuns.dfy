/** The belief of the police peer over whole honest runs of the hidden wire. */
module BeliefRuns {
  import opened Primitives
  import opened Boards
  import opened Scent
  import opened OwnState
  import opened Messages
  import opened Forensics
  import opened Perception
  import opened Protocol
  import opened StepEffects
  import opened Agreement
  import opened HonestScent
  import opened Dispute
  import opened Belief
  import opened FullPerception

  /** The thief's boundary cells are real steps under the walls the police knows when
      it hears of them: those of its own earlier half-turns. */
  ghost predicate PathInv(u: Setup, s: Sys) {
    var timeline, cells := Timeline(s.police.ownRecords), s.thief.own.boundary;
    && (cells == [] ==> s.thief.own.cell == u.terms.thiefStart)
    && forall k :: 0 <= k < |cells| ==> StepAt(u, timeline, cells, k)
  }

  ghost predicate StepAt(u: Setup, timeline: seq<Placement>, cells: seq<Cell>, k: nat)
    requires k < |cells|
  {
    Steps(u.terms.grid, WallsBy(timeline, k), None, Before(u.terms.thiefStart, cells, k), cells[k])
  }

  /** The last known walls are the ones the thief stepped under. */
  lemma NewestStep(u: Setup, timeline: seq<Placement>, cells: seq<Cell>, walls: set<Cell>, was: Cell, now: Cell)
    requires was == Before(u.terms.thiefStart, cells, |cells|) && WallsBy(timeline, |cells|) == walls
    requires Steps(u.terms.grid, walls, None, was, now)
    ensures StepAt(u, timeline, cells + [now], |cells|)
  {
    assert Before(u.terms.thiefStart, cells + [now], |cells|) == was;
  }

  lemma EarlierSteps(u: Setup, timeline: seq<Placement>, cells: seq<Cell>, c: Cell)
    requires forall k :: 0 <= k < |cells| ==> StepAt(u, timeline, cells, k)
    ensures forall k :: 0 <= k < |cells| ==> StepAt(u, timeline, cells + [c], k)
  {
    forall k | 0 <= k < |cells| ensures StepAt(u, timeline, cells + [c], k) {
      assert StepAt(u, timeline, cells, k);
      assert Before(u.terms.thiefStart, cells + [c], k) == Before(u.terms.thiefStart, cells, k);
    }
  }

  lemma HonestStep(g: nat, walls: set<Cell>, was: Cell, move: Move)
    requires Passable(g, walls, was) && LegalMove(g, walls, was, move)
    ensures Steps(g, walls, None, was, Applied(move, was))
  {
  }

  lemma PathThiefActs(u: Setup, s: Sys, s': Sys, a: Action, m: Message)
    requires Frame(u, s) && ThiefToMove(u, s) && DisputeInv(u, s) && PathInv(u, s) && s'.Valid()
    requires ThiefActed(s, s', a, m)
    ensures PathInv(u, s')
  {
    hide StepAt, Timeline, WallsBy, Updated, Serialize, Seals, Surrounded, StaysUnasked, Steps, Distance;
    var timeline, t, now := Timeline(s.police.ownRecords), s.thief.own, s'.thief.own.cell;
    HonestStep(t.grid, t.walls, t.cell, a.move);
    NewestStep(u, timeline, t.boundary, s.police.own.walls, t.cell, now);
    EarlierSteps(u, timeline, t.boundary, now);
  }

  lemma PathOneWallMore(u: Setup, timeline: seq<Placement>, cells: seq<Cell>, k: nat, p: Placement)
    requires k < |cells| && k < p.step && StepAt(u, timeline, cells, k)
    ensures StepAt(u, timeline + [p], cells, k)
  {
    LaterPlacement(timeline, p, k);
  }

  lemma PathPoliceActs(u: Setup, s: Sys, s': Sys, a: Action, m: Message)
    requires Frame(u, s) && PoliceToMove(u, s) && DisputeInv(u, s) && PathInv(u, s) && s'.Valid()
    requires PoliceActed(s, s', a, m)
    ensures PathInv(u, s')
  {
    hide StepAt, Timeline, WallsBy, LawCapture, LegalMove, LegalWall, Serialize;
    var timeline, cells := Timeline(s.police.ownRecords), s.thief.own.boundary;
    TimelineGrows(s.police.ownRecords, m.commit.payload, m.commit.nonce);
    if a.Wall? {
      forall k | 0 <= k < |cells| ensures StepAt(u, Timeline(s'.police.ownRecords), cells, k) {
        PathOneWallMore(u, timeline, cells, k, Placement(s.police.myStep + 1, a.cell));
      }
    } else {
      assert timeline + [] == timeline;
    }
  }

  lemma PathHears(u: Setup, s: Sys, s': Sys, closing: Option<Message>)
    requires PathInv(u, s) && s.Valid() && (StepHeard(s, s') || ConcessionHeard(s, s') || PoliceHeard(s, s', closing))
    ensures PathInv(u, s')
  {
    hide StepAt, Timeline, Updated, Serialize, Dense, Live, Observed, Caught;
  }

  lemma NextPath(u: Setup, s: Sys, l: Label)
    requires Inv(u, s) && DisputeInv(u, s) && PathInv(u, s) && Next(s, l).Some?
    ensures PathInv(u, Next(s, l).value)
  {
    hide *;
    var s', m, closing := NextStepped(u, s, l);
    if ThiefToMove(u, s) {
      PathThiefActs(u, s, s', l.choice.action, m);
    } else if PoliceToMove(u, s) {
      PathPoliceActs(u, s, s', l.choice.action, m);
    } else {
      PathHears(u, s, s', closing);
    }
  }

  lemma {:induction false} RunPath(u: Setup, s: Sys, labels: seq<Label>)
    requires Inv(u, s) && DisputeInv(u, s) && PathInv(u, s) && Run(s, labels).Some?
    ensures PathInv(u, Run(s, labels).value)
    decreases labels
  {
    if labels != [] {
      NextInv(u, s, labels[0]);
      NextDispute(u, s, labels[0]);
      NextPath(u, s, labels[0]);
      RunPath(u, Next(s, labels[0]).value, labels[1..]);
    }
  }

  /** The walls the police peer knew when it heard the thief's k-th step. */
  function KnownWalls(timeline: seq<Placement>, n: nat): (w: seq<set<Cell>>)
    ensures |w| == n && forall k :: 0 <= k < n ==> w[k] == WallsBy(timeline, k)
  {
    seq(n, k requires 0 <= k < n => WallsBy(timeline, k))
  }

  /** A thief's message seen fairly: no barrier, and any move echo names the real step. */
  ghost predicate TruthfulSighting(g: nat, walls: set<Cell>, o: Sighting, was: Cell, now: Cell) {
    && o.Fair(g) && o.barrier == None
    && (o.echo.Some? ==>
          now == if Passable(g, walls, Applied(o.echo.value, was)) then Applied(o.echo.value, was) else was)
  }

  ghost predicate TruthfulStream(u: Setup, timeline: seq<Placement>, cells: seq<Cell>, sightings: seq<Sighting>) {
    && |sightings| <= |cells|
    && forall k :: 0 <= k < |sightings| ==>
         TruthfulSighting(u.terms.grid, WallsBy(timeline, k), sightings[k], Before(u.terms.thiefStart, cells, k),
           cells[k])
  }

  lemma StreamTracked(u: Setup, s: Sys, sightings: seq<Sighting>)
    requires u.Valid() && PathInv(u, s)
    requires TruthfulStream(u, Timeline(s.police.ownRecords), s.thief.own.boundary, sightings)
    ensures Tracked(u.terms.grid, u.terms.thiefStart, s.thief.own.boundary[..|sightings|],
                    KnownWalls(Timeline(s.police.ownRecords), |sightings|), sightings)
  {
    var timeline, cells, n := Timeline(s.police.ownRecords), s.thief.own.boundary, |sightings|;
    var walls := KnownWalls(timeline, n);
    forall k | 0 <= k < n ensures SeenStep(u.terms.grid, u.terms.thiefStart, cells[..n], walls[k], sightings[k], k) {
      assert StepAt(u, timeline, cells, k);
      assert Before(u.terms.thiefStart, cells[..n], k) == Before(u.terms.thiefStart, cells, k);
      assert TruthfulSighting(u.terms.grid, WallsBy(timeline, k), sightings[k], Before(u.terms.thiefStart, cells, k),
        cells[k]);
    }
  }

  /** In every honest run, after every thief step heard with truthful move echoes, the
      police peer's belief is a distribution with mass on the thief's true cell. */
  lemma BeliefNeverLosesTheThief(u: Setup, labels: seq<Label>, sightings: seq<Sighting>)
    requires u.Valid() && Run(Start(u), labels).Some?
    requires var s := Run(Start(u), labels).value;
      TruthfulStream(u, Timeline(s.police.ownRecords), s.thief.own.boundary, sightings)
    ensures var s, g := Run(Start(u), labels).value, u.terms.grid;
      && (forall k :: 0 <= k < |sightings| ==> Square(g, sightings[k].evidence))
      && var p := Posterior(g, sightings, KnownWalls(Timeline(s.police.ownRecords), |sightings|));
         Distribution(g, p) && At(g, p, Before(u.terms.thiefStart, s.thief.own.boundary, |sightings|)) > 0.0
  {
    StartInv(u);
    StartDispute(u);
    assert PathInv(u, Start(u));
    RunPath(u, Start(u), labels);
    var s := Run(Start(u), labels).value;
    var timeline, cells, n := Timeline(s.police.ownRecords), s.thief.own.boundary, |sightings|;
    StreamTracked(u, s, sightings);
    NeverLoses(u.terms.grid, u.terms.thiefStart, cells[..n], KnownWalls(timeline, n), sightings);
    forall k | 0 <= k < n ensures Square(u.terms.grid, sightings[k].evidence) {
      assert TruthfulSighting(u.terms.grid, WallsBy(timeline, k), sightings[k], Before(u.terms.thiefStart, cells, k),
        cells[k]);
    }
    assert Before(u.terms.thiefStart, cells[..n], n) == Before(u.terms.thiefStart, cells, n);
  }

  // --- with the perception of the peer itself -----------------------------------

  /** The trust of an observer of a walker's first `n` frames. */
  function TrustAt(u: Setup, timeline: seq<Placement>, cells: seq<Cell>, n: nat): (t: Trust)
    requires n <= |cells|
    ensures t.Valid() && t.grid == u.terms.grid
  {
    Watch(FreshTrust(u.terms.grid, u.policeEps, Some(u.terms.thiefStart)),
          TrailFrames(u.terms.grid, cells, 0, n), KnownWalls(timeline, n))
  }

  lemma TrustOneMore(u: Setup, timeline: seq<Placement>, cells: seq<Cell>, n: nat)
    requires n < |cells|
    ensures TrustAt(u, timeline, cells, n + 1) ==
            Observed(TrustAt(u, timeline, cells, n), Trail(u.terms.grid, cells[..n + 1]), WallsBy(timeline, n))
  {
    hide Observed, Trail, WallsBy;
    var frames, walls := TrailFrames(u.terms.grid, cells, 0, n + 1), KnownWalls(timeline, n + 1);
    assert frames[..n] == TrailFrames(u.terms.grid, cells, 0, n) && walls[..n] == KnownWalls(timeline, n);
  }

  /** The trust that the police peer really holds in a run is that one. */
  ghost predicate TrustInv(u: Setup, s: Sys) {
    && s.police.own.turns <= |s.thief.own.boundary|
    && s.police.trust == TrustAt(u, Timeline(s.police.ownRecords), s.thief.own.boundary, s.police.own.turns)
  }

  lemma SameTrust(u: Setup, timeline: seq<Placement>, timeline': seq<Placement>, cells: seq<Cell>, cells': seq<Cell>,
      n: nat)
    requires n <= |cells| <= |cells'| && cells'[..|cells|] == cells
    requires forall k :: 0 <= k < n ==> WallsBy(timeline', k) == WallsBy(timeline, k)
    ensures TrustAt(u, timeline', cells', n) == TrustAt(u, timeline, cells, n)
  {
    hide WallsBy, Trail, Watch;
    assert KnownWalls(timeline', n) == KnownWalls(timeline, n);
    var frames, frames' := TrailFrames(u.terms.grid, cells, 0, n), TrailFrames(u.terms.grid, cells', 0, n);
    forall k | 0 <= k < n ensures frames'[k] == frames[k] {
      assert cells'[..|cells|][..k + 1] == cells'[..k + 1];
    }
    assert frames' == frames;
  }

  lemma TrustThiefActs(u: Setup, s: Sys, s': Sys, a: Action, m: Message)
    requires Frame(u, s) && ThiefToMove(u, s) && TrustInv(u, s) && s'.Valid() && ThiefActed(s, s', a, m)
    ensures TrustInv(u, s')
  {
    hide TrustAt, Timeline, WallsBy, Updated, Serialize, Seals, Surrounded, StaysUnasked, LegalMove;
    var timeline := Timeline(s.police.ownRecords);
    SameTrust(u, timeline, timeline, s.thief.own.boundary, s'.thief.own.boundary, s.police.own.turns);
  }

  lemma TrustPoliceActs(u: Setup, s: Sys, s': Sys, a: Action, m: Message)
    requires Frame(u, s) && PoliceToMove(u, s) && TrustInv(u, s) && s'.Valid() && PoliceActed(s, s', a, m)
    ensures TrustInv(u, s')
  {
    hide TrustAt, Timeline, WallsBy, LegalMove, LegalWall, Serialize;
    var timeline, cells := Timeline(s.police.ownRecords), s.thief.own.boundary;
    TimelineGrows(s.police.ownRecords, m.commit.payload, m.commit.nonce);
    if a.Wall? {
      forall k | 0 <= k < s.police.own.turns
        ensures WallsBy(Timeline(s'.police.ownRecords), k) == WallsBy(timeline, k)
      {
        LaterPlacement(timeline, Placement(s.police.myStep + 1, a.cell), k);
      }
    } else {
      assert timeline + [] == timeline;
    }
    SameTrust(u, timeline, Timeline(s'.police.ownRecords), cells, cells, s.police.own.turns);
  }

  lemma TrustPoliceHears(u: Setup, s: Sys, s': Sys)
    requires Frame(u, s) && PoliceToHear(u, s) && DisputeInv(u, s) && ScentInv(u, s) && TrustInv(u, s)
    requires s'.Valid() && StepHeard(s, s')
    ensures TrustInv(u, s')
  {
    hide TrustAt, Timeline, WallsBy, LawCapture, Observed, Dense, Serialize, Trail, Updated, Live, Watched, OwnTrail;
    var t, n := s.thief.own, s.police.own.turns;
    SentIsTrail(t, u.terms.thiefStart, t.turns);
    TrustOneMore(u, Timeline(s.police.ownRecords), t.boundary, n);
    assert t.boundary[..n + 1] == t.boundary;
  }

  lemma TrustUntouched(u: Setup, s: Sys, s': Sys, closing: Option<Message>)
    requires TrustInv(u, s) && s.Valid() && s'.Valid() && (ConcessionHeard(s, s') || PoliceHeard(s, s', closing))
    ensures TrustInv(u, s')
  {
    hide TrustAt, Timeline, Dense, Live, Observed, Caught, Seals, Serialize;
  }

  lemma NextTrust(u: Setup, s: Sys, l: Label)
    requires Inv(u, s) && DisputeInv(u, s) && ScentInv(u, s) && TrustInv(u, s) && Next(s, l).Some?
    ensures TrustInv(u, Next(s, l).value)
  {
    hide *;
    var s', m, closing := NextStepped(u, s, l);
    if ThiefToMove(u, s) {
      TrustThiefActs(u, s, s', l.choice.action, m);
    } else if PoliceToMove(u, s) {
      TrustPoliceActs(u, s, s', l.choice.action, m);
    } else if PoliceToHear(u, s) {
      TrustPoliceHears(u, s, s');
    } else {
      TrustUntouched(u, s, s', closing);
    }
  }

  lemma {:induction false} RunTrust(u: Setup, s: Sys, labels: seq<Label>)
    requires Inv(u, s) && DisputeInv(u, s) && ScentInv(u, s) && TrustInv(u, s) && Run(s, labels).Some?
    ensures TrustInv(u, Run(s, labels).value)
    decreases labels
  {
    if labels != [] {
      NextInv(u, s, labels[0]);
      NextDispute(u, s, labels[0]);
      NextScent(u, s, labels[0]);
      NextTrust(u, s, labels[0]);
      RunTrust(u, Next(s, labels[0]).value, labels[1..]);
    }
  }

  /** What the police peer perceives of the thief's first steps and of the talk with them. */
  ghost function SightingsOf(u: Setup, timeline: seq<Placement>, cells: seq<Cell>, talks: seq<Talk>)
    : (os: seq<Sighting>)
    requires |talks| <= |cells|
    ensures |os| == |talks| && forall k :: 0 <= k < |talks| ==> os[k] == SightingAt(u, timeline, cells, talks[k], k)
  {
    seq(|talks|, k requires 0 <= k < |talks| => SightingAt(u, timeline, cells, talks[k], k))
  }

  ghost function SightingAt(u: Setup, timeline: seq<Placement>, cells: seq<Cell>, talk: Talk, k: nat): Sighting
    requires k < |cells|
  {
    SightingOf(TrustAt(u, timeline, cells, k), Trail(u.terms.grid, cells[..k + 1]), WallsBy(timeline, k), talk)
  }

  ghost predicate AcceptedAt(u: Setup, timeline: seq<Placement>, cells: seq<Cell>, k: nat)
    requires k < |cells|
  {
    Accepted(TrustAt(u, timeline, cells, k), Trail(u.terms.grid, cells[..k + 1]), WallsBy(timeline, k))
  }

  /** A thief places no wall; its move echoes, if it makes any, are true. */
  predicate TruthfulTalk(g: nat, walls: set<Cell>, talk: Talk, was: Cell, now: Cell) {
    && talk.Weighty() && talk.barrier == None
    && (talk.echo.Some? ==>
          now == if Passable(g, walls, Applied(talk.echo.value, was)) then Applied(talk.echo.value, was) else was)
  }

  ghost predicate TruthfulTalks(u: Setup, timeline: seq<Placement>, cells: seq<Cell>, talks: seq<Talk>) {
    && |talks| <= |cells|
    && forall k :: 0 <= k < |talks| ==>
         TruthfulTalk(u.terms.grid, WallsBy(timeline, k), talks[k], Before(u.terms.thiefStart, cells, k), cells[k])
  }

  lemma TalksGiveSightings(u: Setup, timeline: seq<Placement>, cells: seq<Cell>, talks: seq<Talk>)
    requires TruthfulTalks(u, timeline, cells, talks)
    ensures TruthfulStream(u, timeline, cells, SightingsOf(u, timeline, cells, talks))
  {
    hide SightingOf, WallsBy, Trail, TrustAt;
    var g, sightings := u.terms.grid, SightingsOf(u, timeline, cells, talks);
    forall k | 0 <= k < |talks|
      ensures TruthfulSighting(g, WallsBy(timeline, k), sightings[k], Before(u.terms.thiefStart, cells, k), cells[k])
    {
      var t, f := TrustAt(u, timeline, cells, k), Trail(g, cells[..k + 1]);
      SightingIsFair(t, f, WallsBy(timeline, k), talks[k]);
      SightingEchoes(u, timeline, cells, talks[k], k);
      assert TruthfulTalk(g, WallsBy(timeline, k), talks[k], Before(u.terms.thiefStart, cells, k), cells[k]);
    }
  }

  lemma SightingEchoes(u: Setup, timeline: seq<Placement>, cells: seq<Cell>, talk: Talk, k: nat)
    requires k < |cells|
    ensures var o := SightingAt(u, timeline, cells, talk, k);
      o.echo == talk.echo && o.barrier == talk.barrier && o.accepted == AcceptedAt(u, timeline, cells, k)
  {
    hide Trail, TrustAt, WallsBy, Accepted, HeadOf, PlateauCell, PinOf, CheckedRegion, NamedRegion;
  }

  /** An observer that has refused nothing has accepted the last frame. */
  lemma CleanAccepted(t: Trust, f: Field, walls: set<Cell>)
    requires t.Valid() && Square(t.grid, f) && Observed(t, f, walls).refused == 0
    ensures Accepted(t, f, walls)
  {
    hide Solve, IncredibleSaturation, CredibleCells;
  }

  lemma {:induction false} WalkerWatched(u: Setup, timeline: seq<Placement>, cells: seq<Cell>, n: nat)
    requires Walk(u.terms.grid, u.terms.thiefStart, cells) && n <= |cells|
    ensures Watched(TrustAt(u, timeline, cells, n), u.terms.grid, u.terms.thiefStart, cells[..n], n)
    ensures forall k :: 0 <= k < n ==> AcceptedAt(u, timeline, cells, k)
    decreases n
  {
    hide Watched, AcceptedAt, TrustAt, Walk;
    if n > 0 {
      WalkerWatched(u, timeline, cells, n - 1);
      WalkerStep(u, timeline, cells, n - 1);
    } else {
      NobodyWatched(u, timeline, cells);
    }
  }

  lemma NobodyWatched(u: Setup, timeline: seq<Placement>, cells: seq<Cell>)
    ensures Watched(TrustAt(u, timeline, cells, 0), u.terms.grid, u.terms.thiefStart, cells[..0], 0)
  {
  }

  lemma WalkPrefix(g: nat, start: Cell, cells: seq<Cell>, n: nat)
    requires Walk(g, start, cells) && n <= |cells|
    ensures Walk(g, start, cells[..n])
  {
  }

  lemma WalkerStep(u: Setup, timeline: seq<Placement>, cells: seq<Cell>, n: nat)
    requires Walk(u.terms.grid, u.terms.thiefStart, cells) && n < |cells|
    requires Watched(TrustAt(u, timeline, cells, n), u.terms.grid, u.terms.thiefStart, cells[..n], n)
    ensures Watched(TrustAt(u, timeline, cells, n + 1), u.terms.grid, u.terms.thiefStart, cells[..n + 1], n + 1)
    ensures AcceptedAt(u, timeline, cells, n)
  {
    hide TrustAt, Observed, Accepted, Trail, WallsBy, Walk;
    var g, start, t := u.terms.grid, u.terms.thiefStart, TrustAt(u, timeline, cells, n);
    WalkPrefix(g, start, cells, n + 1);
    TrustOneMore(u, timeline, cells, n);
    WatchedGrows(t, g, start, cells[..n], n, cells[n]);
    assert cells[..n] + [cells[n]] == cells[..n + 1];
    WatchOneMore(t, g, start, cells[..n + 1], n, WallsBy(timeline, n));
    CleanAccepted(t, Trail(g, cells[..n + 1]), WallsBy(timeline, n));
  }

  /** The whole perception of the police peer over honest runs: every frame of the
      thief is accepted by the very trust the peer holds, and whatever the talk with
      truthful move echoes, the belief that perception computes stays a distribution
      with mass on the thief's true cell. */
  lemma PerceptionNeverLosesTheThief(u: Setup, labels: seq<Label>, talks: seq<Talk>)
    requires u.Valid() && Run(Start(u), labels).Some?
    requires var s := Run(Start(u), labels).value;
      TruthfulTalks(u, Timeline(s.police.ownRecords), s.thief.own.boundary, talks)
    ensures var s, g, n := Run(Start(u), labels).value, u.terms.grid, |talks|;
      var timeline, cells := Timeline(s.police.ownRecords), s.thief.own.boundary;
      var sightings := SightingsOf(u, timeline, cells, talks);
      && s.police.own.turns <= |cells| && s.police.trust == TrustAt(u, timeline, cells, s.police.own.turns)
      && (forall k :: 0 <= k < n ==> sightings[k].accepted)
      && (forall k :: 0 <= k < n ==> Square(g, sightings[k].evidence))
      && var p := Posterior(g, sightings, KnownWalls(timeline, n));
         Distribution(g, p) && At(g, p, Before(u.terms.thiefStart, cells, n)) > 0.0
  {
    hide Run, TruthfulStream, SightingAt, TruthfulTalk, Posterior, Timeline, DisputeInv, TrustAt, Trail, WallsBy, Inv;
    StartInv(u);
    StartDispute(u);
    StartScent(u);
    StartTrust(u);
    RunTrust(u, Start(u), labels);
    RunScent(u, Start(u), labels);
    var s := Run(Start(u), labels).value;
    var timeline, cells := Timeline(s.police.ownRecords), s.thief.own.boundary;
    TalksGiveSightings(u, timeline, cells, talks);
    BeliefNeverLosesTheThief(u, labels, SightingsOf(u, timeline, cells, talks));
    WalkerWatched(u, timeline, cells, |cells|);
    forall k | 0 <= k < |talks| ensures SightingsOf(u, timeline, cells, talks)[k].accepted {
      SightingEchoes(u, timeline, cells, talks[k], k);
    }
  }

  lemma StartTrust(u: Setup)
    requires u.Valid()
    ensures TrustInv(u, Start(u))
  {
    assert KnownWalls(Timeline(Start(u).police.ownRecords), 0) == [];
  }
}
