/** One whole observation: the trust steps decide what the belief may use, and the frame
    itself supplies the evidence, the dwell plateau and the trail head. */
module FullPerception {
  import opened Primitives
  import opened Boards
  import opened Scent
  import opened Forensics
  import opened ForeignScent
  import opened Perception
  import Evidence
  import opened Belief
  import opened Decode
  import opened Following

  const TRUE_CLAIM: real := 3.0
  const FALSE_CLAIM: real := 0.4
  const LIE_FLOOR: real := 0.4

  /** What comes with a frame: the parsed hint - a move echo, a directional claim, the
      cells of a place name -, the profiler's weights, a freshly declared wall and the
      cell of a capture claim. */
  datatype Talk = Talk(
    echo: Option<Move>, claim: Option<Move>, landmark: set<Cell>, weights: Option<(real, real)>,
    barrier: Option<Cell>, claimed: Option<Cell>)
  {
    predicate InBoard(g: nat) { barrier.Some? ==> InBounds(g, barrier.value) }

    predicate Weighty() { weights.Some? ==> weights.value.0 > 0.0 && weights.value.1 > 0.0 }
  }

  /** Board halves; STAY names them all. */
  predicate Claims(m: Move, g: nat, c: Cell) {
    match m
    case N => 2 * c.row < g
    case S => 2 * c.row >= g
    case W => 2 * c.col < g
    case E => 2 * c.col >= g
    case Stay => true
  }

  function ClaimedRegion(m: Move, g: nat): set<Cell> { set c | c in Cells(g) && Claims(m, g, c) }

  /** A region without a fresh reading exposes the hint. */
  predicate RegionIsLie(g: nat, f: Field, region: set<Cell>)
    requires Square(g, f)
  {
    forall c :: c in region ==> At(g, f, c) < LIE_FLOOR
  }

  /** The region the hint names, if any: an echo has used it up as a directional claim. */
  function NamedRegion(g: nat, talk: Talk): Option<set<Cell>> {
    if talk.echo.None? && talk.claim.Some? then Some(ClaimedRegion(talk.claim.value, g))
    else if talk.landmark != {} then Some(talk.landmark)
    else None
  }

  /** Reputation weights, swapped when the scent exposes a lie. */
  function CheckedRegion(g: nat, f: Field, cells: set<Cell>, weights: Option<(real, real)>): WeightedRegion
    requires Square(g, f)
  {
    var (honest, lying) := if weights.Some? then weights.value else (TRUE_CLAIM, FALSE_CLAIM);
    if RegionIsLie(g, f, cells) then WeightedRegion(cells, lying, honest) else WeightedRegion(cells, honest, lying)
  }

  /** Talk that the scent bears out draws the belief into its region; exposed, it drives
      the belief out, as long as honest talk weighs more than a lie. */
  lemma ExposedTalkRepels(
    g: nat, p: Field, f: Field, cells: set<Cell>, weights: Option<(real, real)>, c: Cell, d: Cell)
    requires g > 0 && Square(g, p) && Square(g, f) && NonNegative(g, p) && Following.Believes(g, p, c)
    requires Following.Believes(g, p, d) && c in cells && d !in cells
    requires weights.Some? ==> weights.value.0 > weights.value.1 > 0.0
    ensures var p' := Told(g, p, Some(CheckedRegion(g, f, cells, weights)));
      if (forall x :: x in cells ==> At(g, f, x) < 0.4) then OddsRise(p, p', d, c) else OddsRise(p, p', c, d)
  {
    var region := CheckedRegion(g, f, cells, weights);
    OddsGoWithWeights(g, p, RegionWeight(region.cells, region.inside, region.outside), c, d);
    OddsGoWithWeights(g, p, RegionWeight(region.cells, region.inside, region.outside), d, c);
  }

  /** Physics outranks talk: the trail head counts unless a fresh wall belies it, and a
      capture claim counts only beside the head and when it is no echo of the wall. */
  function PinOf(head: Option<Cell>, barrier: Option<Cell>, claimed: Option<Cell>): Option<Cell> {
    if head.None? || (barrier.Some? && Distance(head.value, barrier.value) > 1) then None
    else if claimed.Some? && claimed != barrier && Distance(claimed.value, head.value) <= 2 then claimed
    else head
  }

  /** A grid is indexed the program's way: a negative index counts from the end, one past
      the end or further out is an error.  Nobody checks a claimed cell before. */
  predicate Indexable(g: nat, c: Cell) { 0 <= c.row + g < 2 * g && 0 <= c.col + g < 2 * g }

  function Indexed(g: nat, c: Cell): Cell {
    Cell(if c.row < 0 then c.row + g else c.row, if c.col < 0 then c.col + g else c.col)
  }

  function IndexedPin(g: nat, pin: Option<Cell>): Option<Cell> {
    if pin.Some? then Some(Indexed(g, pin.value)) else None
  }

  /** The one cell that clearly explains the plateau. */
  ghost function PlateauCell(g: nat, walls: set<Cell>, f: Field): (c: Option<Cell>)
    requires Square(g, f)
    ensures c.Some? ==> Evidence.Pinned(g, walls, SaturatedCells(g, f, walls), c.value)
    ensures c.None? ==> forall x :: !Evidence.Pinned(g, walls, SaturatedCells(g, f, walls), x)
  {
    if c :| Evidence.Pinned(g, walls, SaturatedCells(g, f, walls), c) then Some(c) else None
  }

  lemma PinnedOnce(g: nat, walls: set<Cell>, plateau: set<Cell>, c: Cell, d: Cell)
    requires Evidence.Pinned(g, walls, plateau, c) && Evidence.Pinned(g, walls, plateau, d)
    ensures c == d
  {
  }

  /** What an observer with trust `t` makes of a frame and its talk. */
  ghost function SightingOf(t: Trust, f: Field, walls: set<Cell>, talk: Talk): Sighting
    requires t.Valid() && Square(t.grid, f)
  {
    var named := NamedRegion(t.grid, talk);
    Sighting(
      talk.echo, talk.barrier, Accepted(t, f, walls), ScentEvidence(t.grid, walls, f),
      if named.Some? then Some(CheckedRegion(t.grid, f, named.value, talk.weights)) else None,
      PlateauCell(t.grid, walls, f), IndexedPin(t.grid, PinOf(HeadOf(t, f), talk.barrier, talk.claimed)))
  }

  /** Whatever the frame and whatever the talk, the sighting is one that the belief can use. */
  lemma SightingIsFair(t: Trust, f: Field, walls: set<Cell>, talk: Talk)
    requires t.Valid() && Square(t.grid, f) && talk.Weighty()
    ensures SightingOf(t, f, walls, talk).Fair(t.grid)
  {
    hide ScentEvidence, Accepted, HeadOf, PlateauCell;
    var g := t.grid;
    forall r, c | 0 <= r < g && 0 <= c < g ensures ScentEvidence(g, walls, f)[r][c] >= 0.0 {
      EvidenceSupport(g, walls, f, Cell(r, c));
    }
  }

  /** A head singled out by the law lies on the board. */
  lemma HeadInBoard(t: Trust, f: Field)
    requires t.Valid() && Square(t.grid, f) && (t.last.Some? ==> InBounds(t.grid, t.last.value))
    ensures HeadOf(t, f).Some? ==> InBounds(t.grid, HeadOf(t, f).value)
  {
    if t.prev.Some? && !Silent(t.grid, f) && !t.book {
      var found := ForeignEmitters(t.grid, t.prev.value, f);
      assert |found| == 1 ==> found[0] in found;
    } else if t.prev.Some? && !Silent(t.grid, f) {
      var emitters := Solve(t.grid, t.prev.value, f, t.eps).0;
      SolvedInBoard(t.grid, t.prev.value, f, t.eps);
      assert |emitters| == 1 ==> emitters[0] in emitters;
    }
  }

  lemma HeadKept(t: Trust, f: Field, walls: set<Cell>)
    requires t.Valid() && Square(t.grid, f)
    ensures Observed(t, f, walls).last.Some? ==> Observed(t, f, walls).last == HeadOf(t, f)
  {
    hide Solve, SaturatedCells, CredibleCells;
  }

  lemma SolvedInBoard(g: nat, prev: Field, cur: Field, eps: real)
    requires Square(g, prev) && Square(g, cur)
    ensures forall e :: e in Solve(g, prev, cur, eps).0 ==> InBounds(g, e)
  {
  }

  class Perceiver {
    const observer: Observer
    const belief: BeliefMap

    ghost predicate Valid()
      reads this, observer, belief
    {
      && observer.View().Valid() && belief.Valid() && belief.grid == observer.grid
      && (observer.last.Some? ==> InBounds(observer.grid, observer.last.value))
    }

    constructor (grid: nat, eps: real, book: bool, anchor: Option<Cell>)
      requires grid > 0
      ensures Valid() && fresh(observer) && fresh(belief)
      ensures observer.View() == FreshTrust(grid, eps, anchor).(book := book)
      ensures belief.grid == grid && belief.p == Uniform(grid)
    {
      observer := new Observer(grid, eps, book, anchor);
      belief := new BeliefMap(grid);
    }

    /** observe_scent: decode, spread, weigh. */
    method ObserveScent(f: Field, walls: set<Cell>)
      requires Valid() && Square(belief.grid, f)
      modifies belief
      ensures Valid()
      ensures belief.p == Reweighed(belief.grid, old(belief.p),
          ScentWeight(belief.grid, walls, ScentEvidence(belief.grid, walls, f)))
      ensures NonNegative(belief.grid, old(belief.p)) ==>
        FollowsTrail(belief.grid, walls, old(belief.p), f, belief.p)
    {
      if NonNegative(belief.grid, belief.p) {
        TrailFollowed(belief.grid, walls, belief.p, f);
      }
      var evidence := MoveMass(belief.grid, f, BallFlow(belief.grid, walls, f));
      belief.ObserveScent(evidence, walls);
    }

    /** region_is_lie, over the cells one by one. */
    method CheckRegion(f: Field, region: set<Cell>) returns (lie: bool)
      requires Square(belief.grid, f)
      ensures lie == RegionIsLie(belief.grid, f, region)
    {
      var freshest, rest := 0.0, region;
      while rest != {}
        invariant rest <= region && (forall c :: c in region - rest ==> At(belief.grid, f, c) <= freshest)
        invariant freshest == 0.0 || exists c :: c in region - rest && At(belief.grid, f, c) == freshest
        decreases rest
      {
        var c :| c in rest;
        if At(belief.grid, f, c) > freshest {
          freshest := At(belief.grid, f, c);
        }
        rest := rest - {c};
      }
      return freshest < LIE_FLOOR;
    }

    /** observe_hint and observe_region, whichever the talk calls for. */
    method ObserveTalk(f: Field, talk: Talk)
      requires Valid() && Square(belief.grid, f)
      modifies belief
      ensures Valid()
      ensures var named := NamedRegion(belief.grid, talk);
        belief.p == Told(belief.grid, old(belief.p),
          if named.Some? then Some(CheckedRegion(belief.grid, f, named.value, talk.weights)) else None)
    {
      var named := NamedRegion(belief.grid, talk);
      if named.Some? {
        var lie := CheckRegion(f, named.value);
        var (honest, lying) := if talk.weights.Some? then talk.weights.value else (TRUE_CLAIM, FALSE_CLAIM);
        var (inside, outside) := if lie then (lying, honest) else (honest, lying);
        belief.ObserveRegion(WeightedRegion(named.value, inside, outside));
      }
    }

    /** observe_plateau: boost the cell that the saturated shape fits, if one does. */
    method ObservePlateau(f: Field, walls: set<Cell>)
      requires Valid() && Square(belief.grid, f)
      modifies belief
      ensures Valid() && belief.p == Boosted(belief.grid, old(belief.p), PlateauCell(belief.grid, walls, f))
    {
      var origin := Evidence.PlateauOrigin(belief.grid, walls, f);
      if origin.Some? {
        PinnedOnce(belief.grid, walls, SaturatedCells(belief.grid, f, walls), origin.value,
          PlateauCell(belief.grid, walls, f).value);
        belief.ObservePin(origin.value);
      }
    }

    method Predict(talk: Talk, walls: set<Cell>, ghost o: Sighting)
      requires Valid() && talk.InBoard(belief.grid) && o.echo == talk.echo && o.barrier == talk.barrier
      modifies belief
      ensures Valid() && belief.p == Predicted(belief.grid, old(belief.p), walls, o)
    {
      if talk.echo.Some? {
        belief.ObserveMotion(talk.echo.value, walls);
      } else {
        belief.Diffuse(walls);
      }
      if talk.barrier.Some? {
        belief.ObserveBarrier(talk.barrier.value, walls);
      }
    }

    /** What an accepted frame adds: scent, talk, plateau, and the trail head last. */
    method Weigh(f: Field, walls: set<Cell>, talk: Talk, head: Option<Cell>, ghost t: Trust) returns (r: Result<()>)
      requires Valid() && Square(belief.grid, f) && talk.InBoard(belief.grid) && t.Valid() && t.grid == belief.grid
      requires head == HeadOf(t, f)
      modifies belief
      ensures Valid()
      ensures var pin := PinOf(head, talk.barrier, talk.claimed);
        if pin.Some? && !Indexable(belief.grid, pin.value) then r == Err(OffBoard)
        else r.Ok? && belief.p == Weighted(belief.grid, old(belief.p), walls, SightingOf(t, f, walls, talk))
    {
      hide ScentEvidence, HeadOf, Accepted, Reweighed, RegionIsLie, PinOf;
      ObserveScent(f, walls);
      ObserveTalk(f, talk);
      ObservePlateau(f, walls);
      var pin := PinOf(head, talk.barrier, talk.claimed);
      if pin.Some? && !Indexable(belief.grid, pin.value) {
        return Err(OffBoard);
      }
      belief.Boost(IndexedPin(belief.grid, pin));
      return Ok(());
    }

    /** Perception.observe. */
    method Observe(f: Field, walls: set<Cell>, talk: Talk) returns (r: Result<()>)
      requires Valid() && Square(observer.grid, f) && talk.InBoard(observer.grid)
      modifies observer, belief
      ensures Valid() && observer.View() == Observed(old(observer.View()), f, walls)
      ensures var t := old(observer.View());
        var pin := PinOf(HeadOf(t, f), talk.barrier, talk.claimed);
        if Accepted(t, f, walls) && pin.Some? && !Indexable(t.grid, pin.value) then r == Err(OffBoard)
        else r.Ok? && belief.p == Perceived(t.grid, old(belief.p), walls, SightingOf(t, f, walls, talk))
    {
      hide HeadOf, Accepted, Observed, Predicted, Weighted, ScentEvidence, CheckedRegion, NamedRegion, PinOf,
        PlateauCell;
      ghost var t := observer.View();
      HeadInBoard(t, f);
      HeadKept(t, f, walls);
      Predict(talk, walls, SightingOf(t, f, walls, talk));
      var accepted, head := observer.Observe(f, walls);
      if accepted {
        r := Weigh(f, walls, talk, head, t);
      } else {
        r := Ok(());
      }
    }
  }
}
