/** The plateau of an agent that stays where it is: which cells reach the clamp, and
    when their shape singles out the cell it stays on. */
module Evidence {
  import opened Primitives
  import opened Boards
  import opened Scent
  import opened Forensics

  const MIN_CELLS: nat := 4
  const MIN_FIT: real := 0.9
  const MARGIN: real := 0.05

  /** An offset whose repeated deposit reaches the clamp: everything under the kernel
      but its four far corners. */
  predicate Saturating(c: Cell, e: Cell) { Delta(c, e) >= (1.0 - KEEP) * CENTER }

  /** The cells a dweller at `e` would drive to the clamp, clipped by board and walls. */
  function Window(g: nat, walls: set<Cell>, e: Cell): (w: set<Cell>)
    ensures forall c :: c in w <==> Passable(g, walls, c) && Saturating(c, e)
  {
    set c | c in Cells(g) && c !in walls && Saturating(c, e)
  }

  // --- dwelling ---------------------------------------------------------------

  /** The field after `n` further turns spent at `e`. */
  function Dwelt(g: nat, f: Field, e: Cell, n: nat): (f': Field)
    requires Square(g, f)
    ensures Square(g, f')
  {
    TrailFrom(g, f, seq(n, _ => e))
  }

  lemma OneTurnMore(g: nat, f: Field, e: Cell, n: nat)
    requires Square(g, f) && n > 0
    ensures Dwelt(g, f, e, n) == Updated(g, Dwelt(g, f, e, n - 1), e)
  {
    var cells: seq<Cell> := seq(n, _ => e);
    assert cells[..n - 1] == seq(n - 1, _ => e);
  }

  /** How far below the clamp a saturating cell can still be after `n` turns. */
  function Shortfall(n: nat): real {
    if n == 0 then CENTER
    else
      var left := KEEP * Shortfall(n - 1) - 0.05;
      if left < 0.0 then 0.0 else left
  }

  lemma SaturatingDelta(c: Cell, e: Cell)
    ensures Saturating(c, e) <==> Delta(c, e) >= 0.14
    ensures Saturating(c, e) <==> Near(c, e) && !(Abs(c.row - e.row) == 2 && Abs(c.col - e.col) == 2)
    ensures !Saturating(c, e) ==> Delta(c, e) <= 0.04
  {
  }

  lemma {:induction false} DwellClimbs(g: nat, f: Field, e: Cell, n: nat, r: int, c: int)
    requires Square(g, f) && InRange(g, f) && 0 <= r < g && 0 <= c < g && Saturating(Cell(r, c), e)
    ensures CENTER - Shortfall(n) <= Dwelt(g, f, e, n)[r][c] <= CENTER
  {
    if n > 0 {
      DwellClimbs(g, f, e, n - 1, r, c);
      SaturatingDelta(Cell(r, c), e);
      OneTurnMore(g, f, e, n);
      assert Dwelt(g, f, e, n)[r][c] == Lawful(Dwelt(g, f, e, n - 1)[r][c], Cell(r, c), e);
    }
  }

  lemma ShortfallGone()
    ensures Shortfall(10) == 0.0 && Shortfall(9) > 0.0
  {
    assert Shortfall(2) == 0.634;
    assert Shortfall(4) == 0.41854;
    assert Shortfall(6) == 0.2440174;
    assert Shortfall(8) == 0.102654094;
    assert Shortfall(9) == 0.0423886846;
  }

  lemma {:induction false} ShortfallStaysGone(n: nat)
    requires n >= 10
    ensures Shortfall(n) == 0.0
  {
    if n == 10 {
      ShortfallGone();
    } else {
      ShortfallStaysGone(n - 1);
    }
  }

  /** Ten consecutive turns at one cell drive every in-board saturating offset to the
      clamp, from any field whatever. */
  lemma DwellSaturates(g: nat, f: Field, e: Cell, n: nat)
    requires Square(g, f) && InRange(g, f) && n >= 10
    ensures forall c :: InBounds(g, c) && Saturating(c, e) ==> Dwelt(g, f, e, n)[c.row][c.col] == CENTER
  {
    forall c | InBounds(g, c) && Saturating(c, e) ensures Dwelt(g, f, e, n)[c.row][c.col] == CENTER {
      ShortfallStaysGone(n);
      assert c == Cell(c.row, c.col);
      DwellClimbs(g, f, e, n, c.row, c.col);
    }
  }

  lemma {:induction false} WeakestClimb(g: nat, e: Cell, n: nat, r: int, c: int)
    requires 0 <= r < g && 0 <= c < g && Delta(Cell(r, c), e) == 0.14 && n <= 9
    ensures Dwelt(g, Silence(g), e, n)[r][c] == CENTER - Shortfall(n)
    ensures Shortfall(n) > 0.0
  {
    if n > 0 {
      WeakestClimb(g, e, n - 1, r, c);
      OneTurnMore(g, Silence(g), e, n);
      assert Dwelt(g, Silence(g), e, n)[r][c] == Lawful(Dwelt(g, Silence(g), e, n - 1)[r][c], Cell(r, c), e);
    }
    ShortfallShrinks(n);
  }

  lemma {:induction false} ShortfallShrinks(n: nat)
    requires n <= 9
    ensures Shortfall(n) > 0.0
  {
    assert Shortfall(2) == 0.634;
    assert Shortfall(4) == 0.41854;
    assert Shortfall(6) == 0.2440174;
    assert Shortfall(8) == 0.102654094;
  }

  /** Ten is exact: after nine turns from silence a weakest saturating offset is still
      short of the clamp. */
  lemma NineTurnsFallShort(g: nat, e: Cell, c: Cell)
    requires InBounds(g, c) && Delta(c, e) == 0.14
    ensures Saturating(c, e) && Dwelt(g, Silence(g), e, 9)[c.row][c.col] < CENTER
  {
    assert c == Cell(c.row, c.col);
    WeakestClimb(g, e, 9, c.row, c.col);
  }

  /** From silence nothing else comes near the clamp, however long the stay. */
  lemma {:induction false} DwellOutsideStaysLow(g: nat, e: Cell, n: nat, r: int, c: int)
    requires 0 <= r < g && 0 <= c < g && !Saturating(Cell(r, c), e)
    ensures 0.0 <= Dwelt(g, Silence(g), e, n)[r][c] <= 0.4
  {
    if n > 0 {
      DwellOutsideStaysLow(g, e, n - 1, r, c);
      SaturatingDelta(Cell(r, c), e);
      OneTurnMore(g, Silence(g), e, n);
      assert Dwelt(g, Silence(g), e, n)[r][c] == Lawful(Dwelt(g, Silence(g), e, n - 1)[r][c], Cell(r, c), e);
    }
  }

  lemma ScaledOrder(x: real, y: real, z: real)
    requires x <= y && z >= 0.0
    ensures x * z <= y * z
  {
  }

  lemma LowIsUnsaturated(v: real)
    requires 0.0 <= v <= 0.4
    ensures !Saturated(v)
  {
    ScaledOrder(v, 0.4, v);
  }

  /** The saturated plateau of a dweller is exactly its clipped window. */
  lemma PlateauIsWindow(g: nat, e: Cell, n: nat, walls: set<Cell>)
    requires n >= 10
    ensures SaturatedCells(g, Dwelt(g, Silence(g), e, n), walls) == Window(g, walls, e)
  {
    DwellSaturates(g, Silence(g), e, n);
    forall c | InBounds(g, c) && c !in walls
      ensures Saturated(Dwelt(g, Silence(g), e, n)[c.row][c.col]) <==> Saturating(c, e)
    {
      if !Saturating(c, e) {
        assert c == Cell(c.row, c.col);
        DwellOutsideStaysLow(g, e, n, c.row, c.col);
        LowIsUnsaturated(Dwelt(g, Silence(g), e, n)[c.row][c.col]);
      }
    }
  }

  // --- fitting the shape ------------------------------------------------------

  /** Jaccard similarity of two shapes. */
  function Fit(plateau: set<Cell>, window: set<Cell>): real
    requires window != {}
  {
    |plateau * window| as real / |plateau + window| as real
  }

  lemma RatioBounds(a: nat, b: nat)
    requires 0 < b && a <= b
    ensures 0.0 <= a as real / b as real <= 1.0
    ensures a == b ==> a as real / b as real == 1.0
  {
  }

  lemma FitBounds(plateau: set<Cell>, window: set<Cell>)
    requires window != {}
    ensures 0.0 <= Fit(plateau, window) <= 1.0
    ensures plateau == window ==> Fit(plateau, window) == 1.0
  {
    var i, u := plateau * window, plateau + window;
    assert |i| <= |u| by {
      assert u == i + (u - i);
    }
    assert u != {};
    RatioBounds(|i|, |u|);
    if plateau == window {
      assert i == window && u == window;
    }
  }

  lemma OwnWindow(g: nat, walls: set<Cell>, c: Cell)
    requires Passable(g, walls, c)
    ensures c in Window(g, walls, c)
  {
  }

  /** How well a dweller at `c` would explain the plateau. */
  function FitAt(g: nat, walls: set<Cell>, plateau: set<Cell>, c: Cell): real {
    if Window(g, walls, c) == {} then 0.0 else Fit(plateau, Window(g, walls, c))
  }

  /** `c` is the clear best explanation of a plateau big enough to have a shape. */
  ghost predicate Pinned(g: nat, walls: set<Cell>, plateau: set<Cell>, c: Cell) {
    && |plateau| >= MIN_CELLS && c in plateau && FitAt(g, walls, plateau, c) >= MIN_FIT
    && forall x :: x in plateau && x != c ==> FitAt(g, walls, plateau, c) - FitAt(g, walls, plateau, x) >= MARGIN
  }

  /** The cells that ten turns at `e` saturate: those within two rows and two columns but
      the four far corners, open and on the board. */
  predicate Saturates(g: nat, walls: set<Cell>, e: Cell, c: Cell) {
    var (rows, cols) := (Abs(c.row - e.row), Abs(c.col - e.col));
    0 <= c.row < g && 0 <= c.col < g && c !in walls && rows <= 2 && cols <= 2 && rows + cols <= 3
  }

  /** Common cells over all cells of the plateau and of what a dweller at `e` saturates. */
  ghost function Overlap(g: nat, walls: set<Cell>, plateau: set<Cell>, e: Cell): real {
    var w := set x | x in Cells(g) && Saturates(g, walls, e, x);
    if w == {} then 0.0 else |plateau * w| as real / |plateau + w| as real
  }

  lemma OverlapIsFit(g: nat, walls: set<Cell>, plateau: set<Cell>, e: Cell)
    ensures FitAt(g, walls, plateau, e) == Overlap(g, walls, plateau, e)
  {
    var w := set x | x in Cells(g) && Saturates(g, walls, e, x);
    forall x ensures x in Window(g, walls, e) <==> x in w { SaturatingDelta(x, e); }
    assert Window(g, walls, e) == w;
  }

  /** The pin in numbers: a plateau of four cells or more, a fit of nine tenths or more,
      and no other cell of the plateau within a twentieth of it. */
  lemma PinnedExactly(g: nat, walls: set<Cell>, plateau: set<Cell>, c: Cell)
    ensures Pinned(g, walls, plateau, c) <==>
      && |plateau| >= 4 && c in plateau && Overlap(g, walls, plateau, c) >= 0.9
      && forall x :: x in plateau && x != c ==>
           Overlap(g, walls, plateau, c) - Overlap(g, walls, plateau, x) >= 0.05
  {
    hide FitAt, Overlap;
    forall x { OverlapIsFit(g, walls, plateau, x); }
  }

  type Score = (real, Cell)

  /** Better fit first, then the smaller cell. */
  predicate Better(a: Score, b: Score) {
    || a.0 > b.0
    || (a.0 == b.0 && (a.1.row < b.1.row || (a.1.row == b.1.row && a.1.col <= b.1.col)))
  }

  function InsertScore(x: Score, s: seq<Score>): seq<Score> {
    if s == [] || Better(x, s[0]) then [x] + s else [s[0]] + InsertScore(x, s[1..])
  }

  function RankScored(s: seq<Score>): seq<Score> {
    if s == [] then [] else InsertScore(s[0], RankScored(s[1..]))
  }

  predicate Ranked(s: seq<Score>) { forall i, j :: 0 <= i < j < |s| ==> Better(s[i], s[j]) && s[i].1 != s[j].1 }

  predicate Once(s: seq<Score>) { forall i, j :: 0 <= i < j < |s| ==> s[i].1 != s[j].1 }

  lemma {:induction false} InsertMembers(x: Score, s: seq<Score>, y: Score)
    ensures y in InsertScore(x, s) <==> y == x || y in s
    decreases s
  {
    if s != [] && !Better(x, s[0]) {
      assert s == [s[0]] + s[1..];
      InsertMembers(x, s[1..], y);
    }
  }

  lemma {:induction false} RankMembers(s: seq<Score>, y: Score)
    ensures y in RankScored(s) <==> y in s
  {
    if s != [] {
      assert s == [s[0]] + s[1..];
      RankMembers(s[1..], y);
      InsertMembers(s[0], RankScored(s[1..]), y);
    }
  }

  lemma {:induction false} InsertRanked(x: Score, s: seq<Score>)
    requires Ranked(s) && forall i :: 0 <= i < |s| ==> s[i].1 != x.1
    ensures Ranked(InsertScore(x, s))
    decreases s
  {
    if s != [] && !Better(x, s[0]) {
      InsertRanked(x, s[1..]);
      var r := InsertScore(x, s[1..]);
      forall j | 0 <= j < |r| ensures Better(s[0], r[j]) && s[0].1 != r[j].1 {
        InsertMembers(x, s[1..], r[j]);
      }
    }
  }

  /** Distinct cells come out best fit first. */
  lemma {:induction false} RankRanked(s: seq<Score>)
    requires Once(s)
    ensures Ranked(RankScored(s))
  {
    if s != [] {
      RankRanked(s[1..]);
      var r := RankScored(s[1..]);
      forall i | 0 <= i < |r| ensures r[i].1 != s[0].1 {
        RankMembers(s[1..], r[i]);
      }
      InsertRanked(s[0], r);
    }
  }

  /** The scores of a set of cells, each cell once. */
  ghost predicate Scores(g: nat, walls: set<Cell>, plateau: set<Cell>, cells: set<Cell>, s: seq<Score>) {
    && Once(s)
    && (forall i :: 0 <= i < |s| ==> s[i].1 in cells && s[i].0 == FitAt(g, walls, plateau, s[i].1))
    && (forall c :: c in cells ==> (FitAt(g, walls, plateau, c), c) in s)
  }

  lemma OneMoreScore(g: nat, walls: set<Cell>, plateau: set<Cell>, cells: set<Cell>, s: seq<Score>, c: Cell)
    requires Scores(g, walls, plateau, cells, s) && c !in cells
    ensures Scores(g, walls, plateau, cells + {c}, s + [(FitAt(g, walls, plateau, c), c)])
  {
    var s' := s + [(FitAt(g, walls, plateau, c), c)];
    forall x | x in cells + {c} ensures (FitAt(g, walls, plateau, x), x) in s' {
      if x == c {
        assert s'[|s|] in s';
      }
    }
  }

  /** The first two of a ranking are the best two cells. */
  ghost predicate TopTwo(g: nat, walls: set<Cell>, plateau: set<Cell>, ranked: seq<Score>) {
    && ranked != [] && ranked[0].1 in plateau && ranked[0].0 == FitAt(g, walls, plateau, ranked[0].1)
    && (|ranked| > 1 ==>
          ranked[1].1 in plateau && ranked[1].1 != ranked[0].1 && ranked[1].0 == FitAt(g, walls, plateau, ranked[1].1)
          && ranked[1].0 <= ranked[0].0)
    && forall x :: x in plateau && x != ranked[0].1 ==> |ranked| > 1 && FitAt(g, walls, plateau, x) <= ranked[1].0
  }

  lemma TopScores(g: nat, walls: set<Cell>, plateau: set<Cell>, ranked: seq<Score>)
    requires plateau != {} && Scores(g, walls, plateau, plateau, ranked) && Ranked(ranked)
    ensures TopTwo(g, walls, plateau, ranked)
  {
    var some :| some in plateau;
    assert (FitAt(g, walls, plateau, some), some) in ranked;
    assert |ranked| > 1 ==> Better(ranked[0], ranked[1]);
    forall x | x in plateau && x != ranked[0].1
      ensures |ranked| > 1 && FitAt(g, walls, plateau, x) <= ranked[1].0
    {
      var k :| 0 <= k < |ranked| && ranked[k] == (FitAt(g, walls, plateau, x), x);
      assert k > 1 ==> Better(ranked[1], ranked[k]);
    }
  }

  lemma RankScores(g: nat, walls: set<Cell>, plateau: set<Cell>, scored: seq<Score>)
    requires Scores(g, walls, plateau, plateau, scored)
    ensures Scores(g, walls, plateau, plateau, RankScored(scored)) && Ranked(RankScored(scored))
  {
    RankRanked(scored);
    forall x: Score ensures x in RankScored(scored) <==> x in scored { RankMembers(scored, x); }
    var r := RankScored(scored);
    forall i | 0 <= i < |r| ensures r[i].1 in plateau && r[i].0 == FitAt(g, walls, plateau, r[i].1) {
      assert r[i] in scored;
    }
  }

  lemma PinDecided(g: nat, walls: set<Cell>, plateau: set<Cell>, ranked: seq<Score>)
    requires |plateau| >= MIN_CELLS && TopTwo(g, walls, plateau, ranked)
    ensures forall c :: Pinned(g, walls, plateau, c) <==>
      c == ranked[0].1 && ranked[0].0 >= MIN_FIT && (|ranked| > 1 ==> ranked[0].0 - ranked[1].0 >= MARGIN)
  {
  }

  /** plateau_origin: score every plateau cell, rank, and pin only a clear winner. */
  method PlateauOrigin(g: nat, walls: set<Cell>, f: Field) returns (origin: Option<Cell>)
    requires Square(g, f)
    ensures var plateau := SaturatedCells(g, f, walls);
      match origin
      case Some(c) => Pinned(g, walls, plateau, c)
      case None => forall c :: !Pinned(g, walls, plateau, c)
  {
    var plateau := SaturatedCells(g, f, walls);
    if |plateau| < MIN_CELLS {
      return None;
    }
    var scored: seq<Score> := [];
    var rest := plateau;
    while rest != {}
      invariant rest <= plateau && Scores(g, walls, plateau, plateau - rest, scored)
      decreases rest
    {
      var c :| c in rest;
      OwnWindow(g, walls, c);
      OneMoreScore(g, walls, plateau, plateau - rest, scored, c);
      assert plateau - rest + {c} == plateau - (rest - {c});
      rest := rest - {c};
      scored := scored + [(Fit(plateau, Window(g, walls, c)), c)];
    }
    var ranked := RankScored(scored);
    assert plateau - rest == plateau;
    RankScores(g, walls, plateau, scored);
    TopScores(g, walls, plateau, ranked);
    PinDecided(g, walls, plateau, ranked);
    if ranked == [] || ranked[0].0 < MIN_FIT {
      return None;
    }
    if |ranked| > 1 && ranked[0].0 - ranked[1].0 < MARGIN {
      return None;
    }
    return Some(ranked[0].1);
  }

  /** A dweller is pinned where it stands or not at all, and exactly when its plateau
      is big enough and fits no other cell of the plateau too well. */
  lemma DwellerPinnedOrNobody(g: nat, walls: set<Cell>, e: Cell, n: nat)
    requires Passable(g, walls, e) && n >= 10
    ensures var plateau := SaturatedCells(g, Dwelt(g, Silence(g), e, n), walls);
      && (forall c :: Pinned(g, walls, plateau, c) ==> c == e)
      && (Pinned(g, walls, plateau, e) <==>
            |Window(g, walls, e)| >= MIN_CELLS &&
            forall x :: x in Window(g, walls, e) && x != e ==> FitAt(g, walls, Window(g, walls, e), x) <= 1.0 - MARGIN)
  {
    hide Dwelt, Window, Fit;
    PlateauIsWindow(g, e, n, walls);
    OwnWindow(g, walls, e);
    var w := Window(g, walls, e);
    FitBounds(w, w);
    forall c | c in w ensures FitAt(g, walls, w, c) <= 1.0 {
      if Window(g, walls, c) != {} {
        FitBounds(w, Window(g, walls, c));
      }
    }
  }

  lemma SideFit(walls: set<Cell>, plateau: set<Cell>, x: Cell)
    requires walls == {Cell(1, 1), Cell(1, 0), Cell(1, 2), Cell(2, 1)}
    requires plateau == {Cell(0, 0), Cell(0, 2), Cell(2, 0), Cell(2, 2), Cell(0, 1)} && x in plateau
    ensures FitAt(3, walls, plateau, x) == (if x == Cell(0, 1) then 1.0 else 0.8)
  {
    if x == Cell(0, 1) {
      SideWindow(walls, plateau, x);
      FitBounds(plateau, plateau);
    } else {
      CornerFit(walls, plateau, x);
    }
  }

  lemma ClearWinner(g: nat, walls: set<Cell>, plateau: set<Cell>, c: Cell)
    requires |plateau| >= MIN_CELLS && c in plateau
    requires forall x :: x in plateau ==> FitAt(g, walls, plateau, x) == (if x == c then 1.0 else 0.8)
    ensures Pinned(g, walls, plateau, c)
  {
  }

  lemma SidePinned(walls: set<Cell>, plateau: set<Cell>)
    requires walls == {Cell(1, 1), Cell(1, 0), Cell(1, 2), Cell(2, 1)}
    requires plateau == {Cell(0, 0), Cell(0, 2), Cell(2, 0), Cell(2, 2), Cell(0, 1)}
    ensures Pinned(3, walls, plateau, Cell(0, 1))
  {
    assert |plateau| == 5;
    forall x | x in plateau
      ensures FitAt(3, walls, plateau, x) == (if x == Cell(0, 1) then 1.0 else 0.8)
    {
      SideFit(walls, plateau, x);
    }
    ClearWinner(3, walls, plateau, Cell(0, 1));
  }

  /** Why the dweller must not stand on a wall: on a small board with the centre and
      three of its sides walled, a dweller on the central wall is pinned to the fourth
      side. */
  lemma WalledDwellerMisplaced(n: nat)
    requires n >= 10
    ensures var walls := {Cell(1, 1), Cell(1, 0), Cell(1, 2), Cell(2, 1)};
      Pinned(3, walls, SaturatedCells(3, Dwelt(3, Silence(3), Cell(1, 1), n), walls), Cell(0, 1))
  {
    var walls := {Cell(1, 1), Cell(1, 0), Cell(1, 2), Cell(2, 1)};
    var plateau := {Cell(0, 0), Cell(0, 2), Cell(2, 0), Cell(2, 2), Cell(0, 1)};
    PlateauIsWindow(3, Cell(1, 1), n, walls);
    SideWindow(walls, plateau, Cell(1, 1));
    SidePinned(walls, plateau);
  }

  lemma SideWindow(walls: set<Cell>, plateau: set<Cell>, e: Cell)
    requires walls == {Cell(1, 1), Cell(1, 0), Cell(1, 2), Cell(2, 1)}
    requires plateau == {Cell(0, 0), Cell(0, 2), Cell(2, 0), Cell(2, 2), Cell(0, 1)}
    requires e == Cell(1, 1) || e == Cell(0, 1)
    ensures Window(3, walls, e) == plateau
  {
    forall c ensures c in Window(3, walls, e) <==> c in plateau {
      OpenCells(walls, plateau, c);
      SaturatingDelta(c, e);
    }
  }

  lemma OpenCells(walls: set<Cell>, plateau: set<Cell>, c: Cell)
    requires walls == {Cell(1, 1), Cell(1, 0), Cell(1, 2), Cell(2, 1)}
    requires plateau == {Cell(0, 0), Cell(0, 2), Cell(2, 0), Cell(2, 2), Cell(0, 1)}
    ensures Passable(3, walls, c) <==> c in plateau
  {
  }

  lemma CornerReach(corner: Cell, c: Cell)
    requires InBounds(3, c) && (corner.row == 0 || corner.row == 2) && (corner.col == 0 || corner.col == 2)
    ensures Saturating(c, corner) <==> c != Cell(2 - corner.row, 2 - corner.col)
  {
    SaturatingDelta(c, corner);
  }

  lemma CornerWindow(walls: set<Cell>, plateau: set<Cell>, corner: Cell)
    requires walls == {Cell(1, 1), Cell(1, 0), Cell(1, 2), Cell(2, 1)}
    requires plateau == {Cell(0, 0), Cell(0, 2), Cell(2, 0), Cell(2, 2), Cell(0, 1)}
    requires corner in plateau - {Cell(0, 1)}
    ensures Window(3, walls, corner) == plateau - {Cell(2 - corner.row, 2 - corner.col)}
  {
    forall c ensures c in Window(3, walls, corner) <==> c in plateau - {Cell(2 - corner.row, 2 - corner.col)} {
      OpenCells(walls, plateau, c);
      if InBounds(3, c) {
        CornerReach(corner, c);
      }
    }
  }

  lemma FitWithin(plateau: set<Cell>, window: set<Cell>)
    requires window != {} && window <= plateau
    ensures Fit(plateau, window) == |window| as real / |plateau| as real
  {
    assert plateau * window == window && plateau + window == plateau;
  }

  lemma CornerFit(walls: set<Cell>, plateau: set<Cell>, corner: Cell)
    requires walls == {Cell(1, 1), Cell(1, 0), Cell(1, 2), Cell(2, 1)}
    requires plateau == {Cell(0, 0), Cell(0, 2), Cell(2, 0), Cell(2, 2), Cell(0, 1)}
    requires corner in plateau - {Cell(0, 1)}
    ensures FitAt(3, walls, plateau, corner) == 0.8
  {
    hide Window, Fit;
    var opposite := Cell(2 - corner.row, 2 - corner.col);
    CornerWindow(walls, plateau, corner);
    assert opposite in plateau && |plateau| == 5;
    var window := plateau - {opposite};
    assert |window| == 4;
    FitWithin(plateau, window);
  }
}
