/** The posterior after an accepted frame, as one formula: every tier of the observation
    multiplies the odds of two cells by what it says of them. */
module Posterior {
  import opened Primitives
  import opened Boards
  import opened Scent
  import opened Forensics
  import opened Perception
  import Evidence
  import opened Belief
  import opened Decode
  import opened Following
  import opened FullPerception

  // --- one tier ---------------------------------------------------------------------

  /** From `p` to `p'` the odds of `c` against `d` were multiplied by `a` to `b`. */
  predicate Multiplied(p: Field, p': Field, c: Cell, d: Cell, a: real, b: real)
    requires 0 <= c.row < |p| == |p'| && 0 <= d.row < |p|
    requires 0 <= c.col < |p[c.row]| == |p'[c.row]| && 0 <= d.col < |p[d.row]| == |p'[d.row]|
  {
    p'[c.row][c.col] * p[d.row][d.col] * b == p'[d.row][d.col] * p[c.row][c.col] * a
  }

  lemma CrossWeights(x: real, y: real, a: real, b: real, t: real)
    requires t > 0.0
    ensures (x * a / t) * y * b == (y * b / t) * x * a
  {
    Rearranged(x, y, a, t);
    Rearranged(y, x, b, t);
    var k := x * y / t;
    assert x * y == y * x;
    assert (k * a) * b == (k * b) * a;
  }

  /** Any weighing by positive weights multiplies the odds by them. */
  lemma WeighingMultiplies(g: nat, p: Field, w: Cell -> real, c: Cell, d: Cell)
    requires g > 0 && Square(g, p) && NonNegative(g, p) && Believes(g, p, c) && Believes(g, p, d)
    requires w(c) > 0.0 && w(d) > 0.0 && forall x :: InBounds(g, x) ==> w(x) >= 0.0
    ensures var p' := Reweighed(g, p, w);
      NonNegative(g, p') && Believes(g, p', c) && Believes(g, p', d) && Multiplied(p, p', c, d, w(c), w(d))
  {
    hide Total, Reweighed, Weighed;
    var total := Total(Weighed(g, p, w));
    ReweighedCells(g, p, w, c);
    forall r, k | 0 <= r < g && 0 <= k < g ensures Reweighed(g, p, w)[r][k] >= 0.0 {
      assert InBounds(g, Cell(r, k));
      Product(p[r][k], w(Cell(r, k)));
      Quotient(p[r][k] * w(Cell(r, k)), total);
    }
    Product(p[c.row][c.col], w(c));
    Product(p[d.row][d.col], w(d));
    Quotient(p[c.row][c.col] * w(c), total);
    Quotient(p[d.row][d.col] * w(d), total);
    CrossWeights(p[c.row][c.col], p[d.row][d.col], w(c), w(d), total);
  }

  lemma Cancelled(x: real, y: real, k: real)
    requires k > 0.0 && x * k == y * k
    ensures x == y
  {
    assert (x - y) * k == 0.0 && (y - x) * k == 0.0;
    if x > y {
      Product(x - y, k);
    } else if x < y {
      Product(y - x, k);
    }
  }

  lemma ComposeNumbers(
    x0: real, y0: real, x1: real, y1: real, x2: real, y2: real, a: real, b: real, a': real, b': real)
    requires x1 > 0.0 && y1 > 0.0
    requires x1 * y0 * b == y1 * x0 * a && x2 * y1 * b' == y2 * x1 * a'
    ensures x2 * y0 * (b * b') == y2 * x0 * (a * a')
  {
    Product(x1, y1);
    var l, r := x2 * y0 * (b * b'), y2 * x0 * (a * a');
    assert l * (x1 * y1) == (x1 * y0 * b) * (x2 * y1 * b') by { Regroup(x2, y0, b, b', x1, y1); }
    assert r * (x1 * y1) == (y1 * x0 * a) * (y2 * x1 * a') by { Regroup(y2, x0, a, a', y1, x1); }
    Cancelled(l, r, x1 * y1);
  }

  lemma Regroup(x: real, y: real, b: real, b': real, u: real, v: real)
    ensures x * y * (b * b') * (u * v) == (u * y * b) * (x * v * b')
  {
    assert (u * y * b) * (x * v * b') == ((u * v) * (x * y)) * (b * b') by {
      assert (u * y * b) * (x * v * b') == (u * y) * (x * v) * (b * b');
      assert (u * y) * (x * v) == (u * v) * (x * y);
    }
  }

  function Both(a: real, b: real): real { a * b }

  lemma Compose(g: nat, p0: Field, p1: Field, p2: Field, c: Cell, d: Cell, a: real, b: real, a': real, b': real)
    requires Square(g, p0) && Square(g, p1) && Square(g, p2) && InBounds(g, c) && InBounds(g, d)
    requires Believes(g, p1, c) && Believes(g, p1, d)
    requires Multiplied(p0, p1, c, d, a, b) && Multiplied(p1, p2, c, d, a', b')
    ensures Multiplied(p0, p2, c, d, Both(a, a'), Both(b, b'))
  {
    ComposeNumbers(p0[c.row][c.col], p0[d.row][d.col], p1[c.row][c.col], p1[d.row][d.col],
                   p2[c.row][c.col], p2[d.row][d.col], a, b, a', b');
  }

  // --- what each tier says of a cell -------------------------------------------------

  function ScentSays(g: nat, walls: set<Cell>, f: Field, c: Cell): real
    requires Square(g, f) && InBounds(g, c)
  {
    0.05 + ScentEvidence(g, walls, f)[c.row][c.col]
  }

  /** The half of the board that a directional claim names. */
  predicate InHalf(m: Move, g: nat, c: Cell) {
    match m
    case N => c.row < g - c.row
    case S => c.row >= g - c.row
    case W => c.col < g - c.col
    case E => c.col >= g - c.col
    case Stay => true
  }

  /** A claim counts unless a move echo used it up; then a place name, if there is one. */
  predicate NamesCell(g: nat, talk: Talk, c: Cell) {
    if talk.echo == None && talk.claim.Some? then InHalf(talk.claim.value, g, c) else c in talk.landmark
  }

  predicate NamesNothing(talk: Talk) { !(talk.echo == None && talk.claim.Some?) && talk.landmark == {} }

  /** Honest talk carries the first weight where it points and the second elsewhere;
      talk that no reading of four tenths bears out, the other way round. */
  ghost function TalkSays(g: nat, f: Field, talk: Talk, c: Cell): real
    requires Square(g, f)
  {
    var (honest, lying) := if talk.weights.Some? then talk.weights.value else (3.0, 0.4);
    var exposed := forall x :: InBounds(g, x) && NamesCell(g, talk, x) ==> f[x.row][x.col] < 0.4;
    if NamesNothing(talk) then 1.0
    else if NamesCell(g, talk, c) != exposed then honest
    else lying
  }

  ghost function PlateauSays(g: nat, walls: set<Cell>, f: Field, c: Cell): real
    requires Square(g, f)
  {
    if Evidence.Pinned(g, walls, SaturatedCells(g, f, walls), c) then 25.0 else 1.0
  }

  /** The trail head, as long as no fresh wall further than a step from it belies it; a
      capture claim stands in for it within two steps and off that wall. */
  predicate IsPin(head: Option<Cell>, barrier: Option<Cell>, claimed: Option<Cell>, c: Cell) {
    && head.Some?
    && (barrier.Some? ==> Abs(head.value.row - barrier.value.row) + Abs(head.value.col - barrier.value.col) <= 1)
    && c == if claimed.Some? && claimed != barrier
               && Abs(claimed.value.row - head.value.row) + Abs(claimed.value.col - head.value.col) <= 2
            then claimed.value
            else head.value
  }

  /** The cell of the grid that an index names, counting from the end when negative. */
  predicate Names(g: nat, index: Cell, c: Cell) {
    && InBounds(g, c)
    && (c.row == index.row || c.row == index.row + g) && (c.col == index.col || c.col == index.col + g)
  }

  ghost function PinSays(g: nat, head: Option<Cell>, talk: Talk, c: Cell): real {
    if exists pin :: IsPin(head, talk.barrier, talk.claimed, pin) && Names(g, pin, c) then 25.0 else 1.0
  }

  /** What an accepted frame and its hint say of a cell, all told. */
  ghost function AllSays(g: nat, walls: set<Cell>, f: Field, head: Option<Cell>, talk: Talk, c: Cell): real
    requires Square(g, f) && InBounds(g, c)
  {
    ScentSays(g, walls, f, c) * TalkSays(g, f, talk, c) * PlateauSays(g, walls, f, c) * PinSays(g, head, talk, c)
  }

  lemma AllOf(g: nat, walls: set<Cell>, f: Field, head: Option<Cell>, talk: Talk, c: Cell)
    requires Square(g, f) && InBounds(g, c)
    ensures AllSays(g, walls, f, head, talk, c) ==
      Both(Both(Both(ScentSays(g, walls, f, c), TalkSays(g, f, talk, c)), PlateauSays(g, walls, f, c)),
           PinSays(g, head, talk, c))
  {
    hide ScentSays, TalkSays, PlateauSays, PinSays;
  }

  // --- the tiers are what they say ----------------------------------------------------

  lemma TalkTier(g: nat, p: Field, f: Field, talk: Talk, c: Cell, d: Cell)
    requires g > 0 && Square(g, p) && Square(g, f) && NonNegative(g, p) && Believes(g, p, c) && Believes(g, p, d)
    requires talk.Weighty()
    ensures var named := NamedRegion(g, talk);
      var p' := Told(g, p, if named.Some? then Some(CheckedRegion(g, f, named.value, talk.weights)) else None);
      && NonNegative(g, p') && Believes(g, p', c) && Believes(g, p', d)
      && Multiplied(p, p', c, d, TalkSays(g, f, talk, c), TalkSays(g, f, talk, d))
  {
    hide Reweighed;
    var named := NamedRegion(g, talk);
    if named.Some? {
      var region := CheckedRegion(g, f, named.value, talk.weights);
      WeighingMultiplies(g, p, RegionWeight(region.cells, region.inside, region.outside), c, d);
      RegionSaid(g, f, talk, c);
      RegionSaid(g, f, talk, d);
    }
  }

  lemma RegionSaid(g: nat, f: Field, talk: Talk, c: Cell)
    requires Square(g, f) && InBounds(g, c) && NamedRegion(g, talk).Some?
    ensures var region := CheckedRegion(g, f, NamedRegion(g, talk).value, talk.weights);
      TalkSays(g, f, talk, c) == if c in region.cells then region.inside else region.outside
  {
    var cells := NamedRegion(g, talk).value;
    forall x | InBounds(g, x) ensures x in cells <==> NamesCell(g, talk, x) {}
    assert RegionIsLie(g, f, cells) <==>
      forall x :: InBounds(g, x) && NamesCell(g, talk, x) ==> f[x.row][x.col] < 0.4;
  }

  lemma BoostTier(g: nat, p: Field, pin: Option<Cell>, c: Cell, d: Cell)
    requires g > 0 && Square(g, p) && NonNegative(g, p) && Believes(g, p, c) && Believes(g, p, d)
    ensures var p' := Boosted(g, p, pin);
      && NonNegative(g, p') && Believes(g, p', c) && Believes(g, p', d)
      && Multiplied(p, p', c, d, if pin == Some(c) then 25.0 else 1.0, if pin == Some(d) then 25.0 else 1.0)
  {
    hide Reweighed;
    if pin.Some? {
      WeighingMultiplies(g, p, PinWeight(pin.value), c, d);
    }
  }

  lemma PlateauSaid(g: nat, walls: set<Cell>, f: Field, c: Cell)
    requires Square(g, f)
    ensures PlateauSays(g, walls, f, c) == if PlateauCell(g, walls, f) == Some(c) then 25.0 else 1.0
  {
    hide Evidence.Pinned;
    var plateau := SaturatedCells(g, f, walls);
    if Evidence.Pinned(g, walls, plateau, c) {
      PinnedOnce(g, walls, plateau, c, PlateauCell(g, walls, f).value);
    }
  }

  lemma PinSaid(g: nat, head: Option<Cell>, talk: Talk, c: Cell)
    requires InBounds(g, c)
    requires var pin := PinOf(head, talk.barrier, talk.claimed); pin.Some? ==> Indexable(g, pin.value)
    ensures PinSays(g, head, talk, c) ==
      if IndexedPin(g, PinOf(head, talk.barrier, talk.claimed)) == Some(c) then 25.0 else 1.0
  {
    var pin := PinOf(head, talk.barrier, talk.claimed);
    forall x ensures IsPin(head, talk.barrier, talk.claimed, x) <==> pin == Some(x) {}
    if pin.Some? {
      assert Names(g, pin.value, c) <==> c == Indexed(g, pin.value);
    }
  }

  lemma ScentTier(g: nat, walls: set<Cell>, p: Field, f: Field, c: Cell, d: Cell)
    requires g > 0 && Square(g, p) && Square(g, f) && NonNegative(g, p)
    requires OpenBelieved(g, walls, p, c) && OpenBelieved(g, walls, p, d)
    ensures var p' := Reweighed(g, p, ScentWeight(g, walls, ScentEvidence(g, walls, f)));
      && NonNegative(g, p') && Believes(g, p', c) && Believes(g, p', d)
      && Multiplied(p, p', c, d, ScentSays(g, walls, f, c), ScentSays(g, walls, f, d))
  {
    hide ScentEvidence, Reweighed, Multiplied;
    forall x ensures At(g, ScentEvidence(g, walls, f), x) >= 0.0 { EvidenceSupport(g, walls, f, x); }
    var w := ScentWeight(g, walls, ScentEvidence(g, walls, f));
    assert w(c) == ScentSays(g, walls, f, c) && w(d) == ScentSays(g, walls, f, d);
    WeighingMultiplies(g, p, w, c, d);
    assert Multiplied(p, Reweighed(g, p, w), c, d, w(c), w(d));
  }

  /** The posterior of an accepted frame.  Between any two open cells that the moved
      belief still holds possible, the odds are those of the moved belief times what the
      scent, the talk, the plateau and the pin say of each. */
  lemma PosteriorOdds(t: Trust, f: Field, walls: set<Cell>, talk: Talk, p: Field, c: Cell, d: Cell)
    requires t.Valid() && t.grid > 0 && Square(t.grid, f) && Square(t.grid, p) && talk.Weighty()
    requires Accepted(t, f, walls)
    requires var pin := PinOf(HeadOf(t, f), talk.barrier, talk.claimed); pin.Some? ==> Indexable(t.grid, pin.value)
    requires var o := SightingOf(t, f, walls, talk);
      var q := Predicted(t.grid, p, walls, o);
      NonNegative(t.grid, q) && OpenBelieved(t.grid, walls, q, c) && OpenBelieved(t.grid, walls, q, d)
    ensures var g, o, head := t.grid, SightingOf(t, f, walls, talk), HeadOf(t, f);
      Multiplied(Predicted(g, p, walls, o), Perceived(g, p, walls, o), c, d,
        AllSays(g, walls, f, head, talk, c), AllSays(g, walls, f, head, talk, d))
  {
    hide HeadOf, Accepted, Reweighed, Told, Boosted, ScentEvidence, CheckedRegion, NamedRegion, PinOf, Predicted,
      PlateauCell, Multiplied, TalkSays, PlateauSays, PinSays, AllSays, Believes, NonNegative, Both;
    var g, o, head := t.grid, SightingOf(t, f, walls, talk), HeadOf(t, f);
    var q := Predicted(g, p, walls, o);
    var q1 := Reweighed(g, q, ScentWeight(g, walls, o.evidence));
    var q2, q3 := Told(g, q1, o.region), Boosted(g, Told(g, q1, o.region), o.plateau);
    ScentTier(g, walls, q, f, c, d);
    TalkTier(g, q1, f, talk, c, d);
    BoostTier(g, q2, o.plateau, c, d);
    BoostTier(g, q3, o.pin, c, d);
    PlateauSaid(g, walls, f, c);
    PlateauSaid(g, walls, f, d);
    PinSaid(g, head, talk, c);
    PinSaid(g, head, talk, d);
    AllOf(g, walls, f, head, talk, c);
    AllOf(g, walls, f, head, talk, d);
    assert Perceived(g, p, walls, o) == Boosted(g, q3, o.pin);
    assert Square(g, q1) && Square(g, q2) && Square(g, q3);
    ComposeTiers(g, q, q1, q2, q3, Boosted(g, q3, o.pin), c, d,
      ScentSays(g, walls, f, c), ScentSays(g, walls, f, d), TalkSays(g, f, talk, c), TalkSays(g, f, talk, d),
      PlateauSays(g, walls, f, c), PlateauSays(g, walls, f, d), PinSays(g, head, talk, c), PinSays(g, head, talk, d));
  }

  lemma ComposeTiers(
    g: nat, q: Field, q1: Field, q2: Field, q3: Field, q4: Field, c: Cell, d: Cell,
    a1: real, b1: real, a2: real, b2: real, a3: real, b3: real, a4: real, b4: real)
    requires Square(g, q) && Square(g, q1) && Square(g, q2) && Square(g, q3) && Square(g, q4)
    requires InBounds(g, c) && InBounds(g, d)
    requires forall q' :: q' in [q1, q2, q3] ==> Square(g, q') && Believes(g, q', c) && Believes(g, q', d)
    requires Multiplied(q, q1, c, d, a1, b1) && Multiplied(q1, q2, c, d, a2, b2)
    requires Multiplied(q2, q3, c, d, a3, b3) && Multiplied(q3, q4, c, d, a4, b4)
    ensures Multiplied(q, q4, c, d, Both(Both(Both(a1, a2), a3), a4), Both(Both(Both(b1, b2), b3), b4))
  {
    hide Multiplied, Believes, Both;
    assert q1 in [q1, q2, q3] && q2 in [q1, q2, q3] && q3 in [q1, q2, q3];
    Compose(g, q, q1, q2, c, d, a1, b1, a2, b2);
    Compose(g, q, q2, q3, c, d, Both(a1, a2), Both(b1, b2), a3, b3);
    Compose(g, q, q3, q4, c, d, Both(Both(a1, a2), a3), Both(Both(b1, b2), b3), a4, b4);
  }

  // --- a declared wall ------------------------------------------------------------------

  /** A wall just declared draws the belief to the open cells beside it, twenty-five to
      one against any other, and leaves nothing on it; without an open cell beside it
      nothing changes. */
  lemma WallMultiplies(g: nat, p: Field, walls: set<Cell>, o: Sighting, wall: Cell, c: Cell, d: Cell)
    requires g > 0 && Square(g, p) && Square(g, o.evidence) && InBounds(g, wall)
    requires !o.accepted && o.barrier == Some(wall)
    requires var q := Perceived(g, p, walls, o.(barrier := None));
      NonNegative(g, q) && Believes(g, q, c) && Believes(g, q, d)
    requires c != wall && d != wall
    ensures var q, q' := Perceived(g, p, walls, o.(barrier := None)), Perceived(g, p, walls, o);
      if exists x :: Passable(g, walls, x) && Distance(wall, x) == 1 then
        && q'[wall.row][wall.col] == 0.0
        && Multiplied(q, q', c, d, if Passable(g, walls, c) && Distance(wall, c) == 1 then 25.0 else 1.0,
                                   if Passable(g, walls, d) && Distance(wall, d) == 1 then 25.0 else 1.0)
      else q' == q
  {
    hide StepsFrom, Reweighed, Shifted;
    StepsFacts(g, walls, wall);
    if x :| Passable(g, walls, x) && Distance(wall, x) == 1 {
      assert x in StepsFrom(g, walls, wall);
      var q := Shifted(g, p, walls, o.echo);
      WeighingMultiplies(g, q, OriginWeight(g, walls, wall), c, d);
      WallEmptied(g, q, OriginWeight(g, walls, wall), c, wall);
    } else {
      NoMembers(StepsFrom(g, walls, wall));
    }
  }
}
