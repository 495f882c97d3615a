/** The reach decode of a trail reading: how far from the cell its emitter may be by now,
    and the evidence that spreads over that ball. */
module Decode {
  import opened Primitives
  import opened Boards
  import opened Scent
  import opened Forensics
  import opened Belief

  const HORIZON: nat := 8
  const RUNG_SLACK: real := 0.000000001

  /** The kernel's rungs off the centre: Manhattan ring and fresh deposit. */
  const RINGS: seq<(nat, real)> := [(1, 0.62), (2, 0.42), (2, 0.20), (3, 0.14), (4, 0.04)]

  /** The square of a centre deposit `a` turns and a half old. */
  function HalfTurnOlder(a: nat): real {
    if a == 0 then 0.729 else 0.81 * HalfTurnOlder(a - 1)
  }

  /** round(log(w / 0.9) / log(0.9)), a tie to the even age, counted up to one past the
      horizon. */
  function Age(w: real, a: nat): (age: nat)
    requires a <= HORIZON + 1
    ensures a <= age <= HORIZON + 1
    decreases HORIZON + 1 - a
  {
    if a > HORIZON || w * w > HalfTurnOlder(a) || (w * w == HalfTurnOlder(a) && a % 2 == 0) then a else Age(w, a + 1)
  }

  /** A ring deposit counts only while its age rounds to zero. */
  predicate FreshRing(w: real, deposit: real) {
    w <= deposit + RUNG_SLACK && w * w >= 0.9 * deposit * deposit
  }

  /** The tightest of the clock and the first `n` rungs. */
  function Tightest(w: real, n: nat): nat
    requires n <= |RINGS|
  {
    if n == 0 then Age(w, 0)
    else
      var best := Tightest(w, n - 1);
      if FreshRing(w, RINGS[n - 1].1) && RINGS[n - 1].0 < best then RINGS[n - 1].0 else best
  }

  function DecodedReach(v: real): Option<nat> {
    if v <= 0.0 then None
    else
      var best := Tightest(if v < CENTER then v else CENTER, |RINGS|);
      if best <= HORIZON then Some(best) else None
  }

  method DecodeReach(v: real) returns (reach: Option<nat>)
    ensures reach == DecodedReach(v)
  {
    if v <= 0.0 {
      return None;
    }
    var w := if v < CENTER then v else CENTER;
    var best := Age(w, 0);
    for n := 0 to |RINGS|
      invariant best == Tightest(w, n)
    {
      if FreshRing(w, RINGS[n].1) && RINGS[n].0 < best {
        best := RINGS[n].0;
      }
    }
    return if best <= HORIZON then Some(best) else None;
  }

  lemma {:induction false} TightestZero(w: real, n: nat)
    requires n <= |RINGS|
    ensures Tightest(w, n) == 0 <==> Age(w, 0) == 0
  {
    if n > 0 {
      TightestZero(w, n - 1);
      assert RINGS[n - 1].0 > 0;
    }
  }

  lemma SquareGrows(v: real)
    requires v >= CENTER
    ensures v * v >= 0.729
  {
    assert v * v >= CENTER * v >= CENTER * CENTER;
  }

  lemma AgeZero(w: real)
    ensures Age(w, 0) == 0 <==> w * w >= 0.729
  {
    assert HalfTurnOlder(0) == 0.729;
  }

  /** A reading decodes to reach zero exactly when it stands at the clamp. */
  lemma ReachZeroIsSaturated(v: real)
    ensures DecodedReach(v) == Some(0) <==> Saturated(v)
  {
    hide Tightest, Age;
    if v > 0.0 {
      var w := if v < CENTER then v else CENTER;
      TightestZero(w, |RINGS|);
      AgeZero(w);
      if v >= CENTER {
        SquareGrows(CENTER);
      }
    }
  }

  /** A fresh deposit decodes to exactly the Manhattan ring it was made at. */
  lemma FreshDepositDecodes(c: Cell, e: Cell)
    requires Near(c, e)
    ensures DecodedReach(Delta(c, e)) == Some(Distance(c, e))
  {
    hide Age;
    AgesOfRungs();
    var d := Delta(c, e);
    assert d == [0.90, 0.62, if Abs(c.row - e.row) == 1 then 0.42 else 0.20, 0.14, 0.04][Distance(c, e)];
  }

  lemma AgesOfRungs()
    ensures Age(0.90, 0) == 0 && Age(0.62, 0) >= 4 && Age(0.42, 0) >= 5 && Age(0.20, 0) >= 5
    ensures Age(0.14, 0) >= 5 && Age(0.04, 0) >= 5
  {
    assert HalfTurnOlder(1) == 0.59049 && HalfTurnOlder(2) == 0.4782969 && HalfTurnOlder(3) == 0.387420489;
    assert HalfTurnOlder(4) == 0.31381059609;
  }

  /** The centre of a trail left to fade for `a` turns. */
  function FadedCentre(a: nat): real { if a == 0 then 0.9 else 0.9 * FadedCentre(a - 1) }

  lemma {:induction false} CentreSquared(a: nat)
    ensures FadedCentre(a) > 0.0 && FadedCentre(a) * FadedCentre(a) * 0.9 == HalfTurnOlder(a)
    ensures FadedCentre(a) <= 0.9 && FadedCentre(a) * FadedCentre(a) > HalfTurnOlder(a) > 0.0
  {
    hide HalfTurnOlder;
    HalfTurnSteps(a);
    if a > 0 {
      CentreSquared(a - 1);
      SquareOfFaded(FadedCentre(a - 1));
    }
    Product(FadedCentre(a), FadedCentre(a));
  }

  lemma HalfTurnSteps(a: nat)
    ensures HalfTurnOlder(0) == 0.729
    ensures a > 0 ==> HalfTurnOlder(a) == 0.81 * HalfTurnOlder(a - 1)
  {
  }

  lemma SquareOfFaded(x: real)
    ensures (0.9 * x) * (0.9 * x) * 0.9 == 0.81 * (x * x * 0.9)
  {
  }

  lemma {:induction false} AgeNoMore(w: real, from: nat, a: nat)
    requires from <= a <= HORIZON && w * w > HalfTurnOlder(a)
    ensures Age(w, from) <= a
    decreases a - from
  {
    if from < a {
      AgeNoMore(w, from + 1, a);
    }
  }

  lemma {:induction false} TightestNoMore(w: real, n: nat)
    requires n <= |RINGS|
    ensures Tightest(w, n) <= Age(w, 0)
  {
    if n > 0 {
      TightestNoMore(w, n - 1);
    }
  }

  /** A centre that has faded for `a` turns, up to the horizon, decodes to no more than
      the `a` steps its emitter may have taken since. */
  lemma FadedCentreDecodes(a: nat)
    requires a <= HORIZON
    ensures DecodedReach(FadedCentre(a)).Some? && DecodedReach(FadedCentre(a)).value <= a
  {
    hide Tightest, Age;
    var w := FadedCentre(a);
    CentreSquared(a);
    AgeNoMore(w, 0, a);
    TightestNoMore(w, |RINGS|);
  }

  // --- the decode, exactly --------------------------------------------------------

  /** `w` is no older than `n` turns of fading from the centre, to the nearest turn, a tie
      going to the even one. */
  predicate NoOlder(w: real, n: nat) {
    w * w > HalfTurnOlder(n) || (w * w == HalfTurnOlder(n) && n % 2 == 0)
  }

  lemma HalfTurnFalls(n: nat)
    ensures HalfTurnOlder(n + 1) < HalfTurnOlder(n)
  {
    CentreSquared(n);
  }

  lemma {:induction false} OlderIsNoOlder(w: real, a: nat, n: nat)
    requires a < n && w * w >= HalfTurnOlder(a)
    ensures w * w > HalfTurnOlder(n)
    decreases n
  {
    HalfTurnFalls(n - 1);
    if a < n - 1 {
      OlderIsNoOlder(w, a, n - 1);
    }
  }

  lemma {:induction false} AgeWithin(w: real, from: nat, n: nat)
    requires from <= n <= HORIZON
    ensures Age(w, from) <= n <==> exists a :: from <= a <= n && NoOlder(w, a)
    decreases n - from
  {
    hide NoOlder;
    AgeStops(w, from);
    if !NoOlder(w, from) && from < n {
      AgeWithin(w, from + 1, n);
    }
  }

  lemma AgeStops(w: real, from: nat)
    requires from <= HORIZON
    ensures NoOlder(w, from) ==> Age(w, from) == from
    ensures !NoOlder(w, from) ==> Age(w, from) == Age(w, from + 1) > from
  {
  }

  lemma AgeExactly(w: real, n: nat)
    requires n <= HORIZON
    ensures Age(w, 0) <= n <==> NoOlder(w, n)
  {
    AgeWithin(w, 0, n);
    if a :| 0 <= a <= n && NoOlder(w, a) {
      if a < n {
        OlderIsNoOlder(w, a, n);
      }
    }
  }

  lemma {:induction false} TightestWithin(w: real, k: nat, n: nat)
    requires k <= |RINGS|
    ensures Tightest(w, k) <= n <==>
      Age(w, 0) <= n || exists i :: 0 <= i < k && FreshRing(w, RINGS[i].1) && RINGS[i].0 <= n
  {
    hide Age, FreshRing;
    if k > 0 {
      TightestWithin(w, k - 1, n);
    }
  }

  /** The rungs are the kernel's own deposits off the centre. */
  lemma RingsAreDeposits(c: Cell, e: Cell)
    requires Near(c, e) && c != e
    ensures (Distance(c, e), Delta(c, e)) in RINGS
  {
  }

  lemma DepositsAreRings(i: nat)
    requires i < |RINGS|
    ensures exists c :: Near(c, Cell(0, 0)) && c != Cell(0, 0)
                        && RINGS[i] == (Distance(c, Cell(0, 0)), Delta(c, Cell(0, 0)))
  {
    var c := [Cell(0, 1), Cell(1, 1), Cell(0, 2), Cell(1, 2), Cell(2, 2)][i];
    assert Near(c, Cell(0, 0)) && RINGS[i] == (Distance(c, Cell(0, 0)), Delta(c, Cell(0, 0)));
  }

  /** A fresh reading of an emitter at the origin, `n` steps away or less. */
  predicate FreshFrom(w: real, n: nat, c: Cell) {
    var d := Delta(c, Cell(0, 0));
    && Near(c, Cell(0, 0)) && c != Cell(0, 0) && Distance(c, Cell(0, 0)) <= n
    && w <= d + 0.000000001 && w * w >= 0.9 * d * d
  }

  lemma FreshRings(w: real, n: nat)
    ensures (exists i :: 0 <= i < |RINGS| && FreshRing(w, RINGS[i].1) && RINGS[i].0 <= n) <==>
      exists c :: FreshFrom(w, n, c)
  {
    hide Delta, Distance;
    if i :| 0 <= i < |RINGS| && FreshRing(w, RINGS[i].1) && RINGS[i].0 <= n {
      DepositsAreRings(i);
      var c :| Near(c, Cell(0, 0)) && c != Cell(0, 0) && RINGS[i] == (Distance(c, Cell(0, 0)), Delta(c, Cell(0, 0)));
      assert FreshFrom(w, n, c);
    }
    if c :| FreshFrom(w, n, c) {
      RingsAreDeposits(c, Cell(0, 0));
      var i :| 0 <= i < |RINGS| && RINGS[i] == (Distance(c, Cell(0, 0)), Delta(c, Cell(0, 0)));
      assert FreshRing(w, RINGS[i].1);
    }
  }

  /** A reading decodes within `n` steps exactly when it is a centre no older than that,
      or fresh at a place within `n` steps of the emitter that laid it: no higher than the
      deposit there, and not half a turn older.  Nothing decodes beyond eight. */
  lemma DecodesExactly(v: real, n: nat)
    requires v > 0.0 && n <= 8
    ensures var w := if v < 0.9 then v else 0.9;
      (DecodedReach(v).Some? && DecodedReach(v).value <= n) <==>
        || NoOlder(w, n)
        || exists c :: FreshFrom(w, n, c)
    ensures DecodedReach(v).Some? ==> DecodedReach(v).value <= 8
  {
    hide Tightest, Age, NoOlder, FreshFrom, FreshRing;
    var w := if v < CENTER then v else CENTER;
    TightestWithin(w, |RINGS|, n);
    AgeExactly(w, n);
    FreshRings(w, n);
  }

  // --- the evidence -----------------------------------------------------------

  function InBall(walls: set<Cell>, c: Cell, reach: nat): Cell -> bool {
    d => Distance(c, d) <= reach && d !in walls
  }

  /** The open cells that a reading at `c` speaks for. */
  function Ball(g: nat, walls: set<Cell>, c: Cell, reading: real): seq<Cell> {
    match DecodedReach(reading)
    case None => []
    case Some(reach) => Scan(InBall(walls, c, reach), g, g)
  }

  lemma BallMembers(g: nat, walls: set<Cell>, c: Cell, reading: real, d: Cell)
    ensures d in Ball(g, walls, c, reading) <==>
      DecodedReach(reading).Some? && Distance(c, d) <= DecodedReach(reading).value && Passable(g, walls, d)
  {
    hide DecodedReach, Scan;
    if DecodedReach(reading).Some? {
      ScanMembers(InBall(walls, c, DecodedReach(reading).value), g, g, d);
    }
  }

  function BallFlow(g: nat, walls: set<Cell>, f: Field): Flow {
    (c: Cell) => if Square(g, f) then Ball(g, walls, c, At(g, f, c)) else []
  }

  lemma BallsAreProper(g: nat, walls: set<Cell>, f: Field)
    requires Square(g, f)
    ensures Proper(g, BallFlow(g, walls, f)) && Sourced(g, f, BallFlow(g, walls, f))
  {
    hide Scan, Tightest;
    forall c | InBounds(g, c) ensures ProperAt(g, BallFlow(g, walls, f)(c)) {
      var reading := At(g, f, c);
      assert BallFlow(g, walls, f)(c) == Ball(g, walls, c, reading);
      forall d | d in Ball(g, walls, c, reading) ensures InBounds(g, d) { BallMembers(g, walls, c, reading, d); }
      if DecodedReach(reading).Some? {
        ScanDistinct(InBall(walls, c, DecodedReach(reading).value), g, g);
      }
    }
  }

  /** scent_evidence: each decodable reading spreads over its ball. */
  function ScentEvidence(g: nat, walls: set<Cell>, f: Field): (evidence: Field)
    requires Square(g, f)
    ensures Square(g, evidence)
  {
    Moved(g, f, BallFlow(g, walls, f), g)
  }

  /** The reading at `c` has evidence to give at `d`. */
  predicate SpeaksFor(g: nat, walls: set<Cell>, f: Field, c: Cell, d: Cell)
    requires Square(g, f)
  {
    && InBounds(g, c) && Passable(g, walls, d)
    && DecodedReach(At(g, f, c)).Some? && Distance(c, d) <= DecodedReach(At(g, f, c)).value
  }

  lemma EvidenceFlows(g: nat, walls: set<Cell>, f: Field, c: Cell, d: Cell)
    requires Square(g, f) && InBounds(g, c)
    ensures Inflow(g, f, BallFlow(g, walls, f), c, d) >= 0.0
    ensures Inflow(g, f, BallFlow(g, walls, f), c, d) > 0.0 <==> SpeaksFor(g, walls, f, c, d)
  {
    hide Scan, Tightest;
    BallMembers(g, walls, c, At(g, f, c), d);
    InflowFacts(g, f, BallFlow(g, walls, f), c, d);
  }

  /** Evidence is never negative, falls on no barrier, and lies exactly where some
      decodable reading has the cell within its reach. */
  lemma EvidenceSupport(g: nat, walls: set<Cell>, f: Field, d: Cell)
    requires Square(g, f)
    ensures At(g, ScentEvidence(g, walls, f), d) >= 0.0
    ensures At(g, ScentEvidence(g, walls, f), d) > 0.0 <==> exists c :: SpeaksFor(g, walls, f, c, d)
  {
    hide BallFlow, SpeaksFor, Inflow;
    var flow := BallFlow(g, walls, f);
    BallsAreProper(g, walls, f);
    MovedReaches(g, f, flow, g, d, d);
    forall c | InBounds(g, c) && Inflow(g, f, flow, c, d) > 0.0 ensures At(g, ScentEvidence(g, walls, f), d) > 0.0 {
      MovedReaches(g, f, flow, g, c, d);
    }
    forall c | InBounds(g, c) ensures SpeaksFor(g, walls, f, c, d) <==> Inflow(g, f, flow, c, d) > 0.0 {
      EvidenceFlows(g, walls, f, c, d);
    }
    SpeakersInBounds(g, walls, f, d);
    if forall c :: !SpeaksFor(g, walls, f, c, d) {
      forall c | InBounds(g, c) ensures Inflow(g, f, flow, c, d) == 0.0 { EvidenceFlows(g, walls, f, c, d); }
      MovedMisses(g, f, flow, g, d);
    }
  }

  lemma SpeakersInBounds(g: nat, walls: set<Cell>, f: Field, d: Cell)
    requires Square(g, f)
    ensures forall c :: SpeaksFor(g, walls, f, c, d) ==> InBounds(g, c)
  {
  }

  /** The evidence shares out the readings that have a ball, and nothing else. */
  lemma EvidenceConserves(g: nat, walls: set<Cell>, f: Field)
    requires Square(g, f)
    ensures Total(ScentEvidence(g, walls, f)) == Total(Carried(g, f, BallFlow(g, walls, f)))
  {
    hide Moved, Total, BallFlow, Proper;
    var flow := BallFlow(g, walls, f);
    BallsAreProper(g, walls, f);
    MovedConserves(g, f, flow, g);
    assert Carried(g, f, flow)[..g] == Carried(g, f, flow);
    assert ScentEvidence(g, walls, f) == Moved(g, f, flow, g);
  }
}
