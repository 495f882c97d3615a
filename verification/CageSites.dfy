/** What the cap on the wall sites costs the cage forecast: it keeps the sites nearest to
    the landing, and what it drops is not feared. */
module CageSites {
  import opened Primitives
  import opened Boards
  import opened Forensics
  import opened Sorting
  import opened Pathfind
  import opened CageForecast

  /** An open cell within the cop's reach, and within three steps of it unless it stands
      at an edge or beside a wall. */
  predicate Qualifies(g: nat, walls: set<Cell>, cop: Cell, reach: nat, c: Cell) {
    var away := Abs(c.row - cop.row) + Abs(c.col - cop.col);
    && 0 <= c.row < g && 0 <= c.col < g && c !in walls && away <= reach
    && (|| away <= 3
        || c.row in {0, g - 1} || c.col in {0, g - 1}
        || Cell(c.row - 1, c.col) in walls || Cell(c.row + 1, c.col) in walls
        || Cell(c.row, c.col - 1) in walls || Cell(c.row, c.col + 1) in walls)
  }

  /** A place where a cop at `cop` may be feared to wall, capped or not. */
  predicate Feared(g: nat, walls: set<Cell>, cop: Cell, reach: nat, landing: Cell, c: Cell) {
    Qualifies(g, walls, cop, reach, c) && c != landing
  }

  /** How many cells qualify as sites before the cap. */
  ghost function SiteCount(g: nat, walls: set<Cell>, cop: Cell, reach: nat): nat {
    |set c | c in Cells(g) && Qualifies(g, walls, cop, reach, c)|
  }

  lemma QualifiedAreScanned(g: nat, walls: set<Cell>, cop: Cell, reach: nat, c: Cell)
    ensures Qualifies(g, walls, cop, reach, c) <==> c in Scan(SiteFor(g, walls, cop, reach), g, g)
  {
    ScanMembers(SiteFor(g, walls, cop, reach), g, g, c);
  }

  lemma CountIsScanned(g: nat, walls: set<Cell>, cop: Cell, reach: nat)
    ensures SiteCount(g, walls, cop, reach) == |Scan(SiteFor(g, walls, cop, reach), g, g)|
  {
    hide Qualifies, SiteFor, Scan;
    ScanDistinct(SiteFor(g, walls, cop, reach), g, g);
    var sites := set c | c in Cells(g) && Qualifies(g, walls, cop, reach, c);
    forall c ensures c in Scan(SiteFor(g, walls, cop, reach), g, g) <==> c in sites {
      QualifiedAreScanned(g, walls, cop, reach, c);
      QualifiesInBounds(g, walls, cop, reach, c);
    }
    DistinctSize(Scan(SiteFor(g, walls, cop, reach), g, g), sites);
  }

  lemma QualifiesInBounds(g: nat, walls: set<Cell>, cop: Cell, reach: nat, c: Cell)
    ensures Qualifies(g, walls, cop, reach, c) ==> InBounds(g, c)
  {
  }

  lemma FearedIsScanned(g: nat, walls: set<Cell>, cop: Cell, reach: nat, landing: Cell, c: Cell)
    ensures Feared(g, walls, cop, reach, landing, c) <==>
      c in Scan(SiteFor(g, walls, cop, reach), g, g) && c != landing
  {
    QualifiedAreScanned(g, walls, cop, reach, c);
  }

  /** The site list holds feared places only, ... */
  lemma SitesAreFeared(g: nat, walls: set<Cell>, cop: Cell, reach: nat, landing: Cell, c: Cell)
    requires c in Sites(g, walls, cop, reach, landing)
    ensures Feared(g, walls, cop, reach, landing, c)
  {
    hide SiteFor, Scan;
    var all := Scan(SiteFor(g, walls, cop, reach), g, g);
    SameMembers(all, ByDistance(landing));
    FearedIsScanned(g, walls, cop, reach, landing, c);
  }

  lemma CapHolds(g: nat, walls: set<Cell>, cop: Cell, reach: nat, landing: Cell)
    requires SiteCount(g, walls, cop, reach) <= 14
    ensures forall c :: Feared(g, walls, cop, reach, landing, c) ==> c in Sites(g, walls, cop, reach, landing)
  {
    hide SiteFor, Scan, Feared;
    CountIsScanned(g, walls, cop, reach);
    SameMembers(Scan(SiteFor(g, walls, cop, reach), g, g), ByDistance(landing));
    forall c | Feared(g, walls, cop, reach, landing, c) ensures c in Sites(g, walls, cop, reach, landing) {
      FearedIsScanned(g, walls, cop, reach, landing, c);
    }
  }

  lemma PrefixMembers(s: seq<Cell>, n: nat)
    requires n <= |s|
    ensures |Members(s[..n])| <= n
  {
    MembersBound(s[..n]);
  }

  lemma Fewer(a: set<Cell>, b: set<Cell>)
    requires |a| > |b|
    ensures exists c :: c in a && c !in b
  {
    if a <= b {
      SubsetSmaller(a, b);
    }
  }

  /** More sites than the cap: one of them is dropped, and it is not the landing. */
  lemma CapDrops(g: nat, walls: set<Cell>, cop: Cell, reach: nat, landing: Cell) returns (c: Cell)
    requires SiteCount(g, walls, cop, reach) > 14
    ensures Feared(g, walls, cop, reach, landing, c) && c !in Sites(g, walls, cop, reach, landing)
  {
    hide SiteFor, Scan, Feared;
    CountIsScanned(g, walls, cop, reach);
    var all := Scan(SiteFor(g, walls, cop, reach), g, g);
    var near := Sort(all, ByDistance(landing));
    SameMembers(all, ByDistance(landing));
    ScanDistinct(SiteFor(g, walls, cop, reach), g, g);
    DistinctSize(all, Members(all));
    PrefixMembers(near, SITE_CAP);
    Fewer(Members(all), Members(near[..SITE_CAP]));
    c :| c in Members(all) && c !in Members(near[..SITE_CAP]);
    if landing in near {
      LandingKept(near, landing);
    }
    FearedIsScanned(g, walls, cop, reach, landing, c);
  }

  /** The landing is nearest to itself, so it is never what the cap drops. */
  lemma LandingKept(near: seq<Cell>, landing: Cell)
    requires SortedBy(near, ByDistance(landing)) && |near| > SITE_CAP && landing in near
    ensures landing in near[..SITE_CAP]
  {
    var i :| 0 <= i < |near| && near[i] == landing;
    assert i == 0 || ByDistance(landing)(near[0]) <= ByDistance(landing)(near[i]);
    assert near[0] == landing == near[..SITE_CAP][0];
  }

  /** ... and all of them exactly when no more than the cap qualify. */
  lemma SitesComplete(g: nat, walls: set<Cell>, cop: Cell, reach: nat, landing: Cell)
    ensures (forall c :: Feared(g, walls, cop, reach, landing, c) <==> c in Sites(g, walls, cop, reach, landing))
      <==> SiteCount(g, walls, cop, reach) <= 14
  {
    hide Feared, Sites, SiteCount;
    forall c | c in Sites(g, walls, cop, reach, landing) ensures Feared(g, walls, cop, reach, landing, c) {
      SitesAreFeared(g, walls, cop, reach, landing, c);
    }
    if SiteCount(g, walls, cop, reach) <= 14 {
      CapHolds(g, walls, cop, reach, landing);
    } else {
      var c := CapDrops(g, walls, cop, reach, landing);
    }
  }

  // --- walls that nobody walks into ---------------------------------------------

  /** Walls on cells that are out of reach anyway close no way. */
  lemma {:induction false} OutOfReachKeepsWays(
    g: nat, walls: set<Cell>, more: set<Cell>, src: Cell, c: Cell, n: nat)
    requires forall d :: d in more ==> d != src && !Reachable(g, walls, src, d)
    requires Within(g, walls, src, c, n)
    ensures Within(g, walls + more, src, c, n)
    decreases n
  {
    if c != src {
      if Within(g, walls, src, c, n - 1) {
        OutOfReachKeepsWays(g, walls, more, src, c, n - 1);
      } else {
        var d :| Beside(d, c) && Within(g, walls, src, d, n - 1);
        OutOfReachKeepsWays(g, walls, more, src, d, n - 1);
        assert Reachable(g, walls, src, c);
      }
    }
  }

  lemma OutOfReachKeepsRegion(g: nat, walls: set<Cell>, more: set<Cell>, src: Cell)
    requires forall d :: d in more ==> d != src && !Reachable(g, walls, src, d)
    ensures Region(g, walls + more, src) == Region(g, walls, src)
  {
    WallsShrinkRegion(g, walls, walls + more, src);
    forall c | c in RegionSet(g, walls, src) ensures c in RegionSet(g, walls + more, src) {
      var n: nat :| Within(g, walls, src, c, n);
      OutOfReachKeepsWays(g, walls, more, src, c, n);
    }
    assert RegionSet(g, walls + more, src) == RegionSet(g, walls, src);
  }

  /** More walls leave less within reach. */
  lemma StillOutOfReach(g: nat, walls: set<Cell>, more: set<Cell>, src: Cell, c: Cell)
    requires !Reachable(g, walls, src, c)
    ensures !Reachable(g, walls + more, src, c)
  {
    if Reachable(g, walls + more, src, c) {
      var n: nat :| Within(g, walls + more, src, c, n);
      WallsOnlySlow(g, walls, walls + more, src, c, n);
    }
  }

  /** A wall on a cell within reach takes at least that cell. */
  lemma WallTakesItsCell(g: nat, walls: set<Cell>, src: Cell, c: Cell)
    requires c != src && Reachable(g, walls, src, c)
    ensures Region(g, walls + {c}, src) < Region(g, walls, src)
  {
    WallsShrinkRegion(g, walls, walls + {c}, src);
    var n: nat :| Within(g, walls, src, c, n);
    WithinOnBoard(g, walls, src, c, n);
    assert c in RegionSet(g, walls, src);
    if c in RegionSet(g, walls + {c}, src) {
      var m: nat :| Within(g, walls + {c}, src, c, m);
      NobodyOnAWall(g, walls + {c}, src, c, m);
    }
    SubsetSmaller(RegionSet(g, walls + {c}, src), RegionSet(g, walls, src) - {c});
  }

  lemma {:induction false} NobodyOnAWall(g: nat, walls: set<Cell>, src: Cell, c: Cell, n: nat)
    requires c in walls && c != src
    ensures !Within(g, walls, src, c, n)
    decreases n
  {
    if n > 0 {
      NobodyOnAWall(g, walls, src, c, n - 1);
    }
  }

  // --- the forecast against every feared cage -------------------------------------

  /** A cage of at most the clamped size that one believed cop may be feared to build,
      whatever the cap. */
  ghost predicate Cage(
    g: nat, walls: set<Cell>, landing: Cell, cops: seq<Cell>, k: int, reach: nat, quota: int, x: set<Cell>)
  {
    && (x == {} || (|x| <= k && |x| <= quota))
    && exists j :: 0 <= j < |cops| && AllFeared(g, walls, cops[j], reach, landing, x)
  }

  ghost predicate AllFeared(g: nat, walls: set<Cell>, cop: Cell, reach: nat, landing: Cell, x: set<Cell>) {
    forall c :: c in x ==> Feared(g, walls, cop, reach, landing, c)
  }

  /** What the cap drops for this cop cannot be walked to from the landing. */
  ghost predicate DropsHarmless(g: nat, walls: set<Cell>, cop: Cell, reach: nat, landing: Cell) {
    forall c :: Feared(g, walls, cop, reach, landing, c) && c !in Sites(g, walls, cop, reach, landing) ==>
      !Reachable(g, walls, landing, c)
  }

  /** A wall set and its part on the site list leave the same region. */
  lemma DropsDoNotMatter(g: nat, walls: set<Cell>, cop: Cell, reach: nat, landing: Cell, x: set<Cell>, kept: set<Cell>)
    requires AllFeared(g, walls, cop, reach, landing, x) && DropsHarmless(g, walls, cop, reach, landing)
    requires kept == x * Members(Sites(g, walls, cop, reach, landing))
    ensures Region(g, walls + x, landing) == Region(g, walls + kept, landing)
  {
    hide Feared, Sites, Reachable;
    var dropped := x - kept;
    forall d | d in dropped ensures d != landing && !Reachable(g, walls + kept, landing, d) {
      assert Feared(g, walls, cop, reach, landing, d);
      FearedIsScanned(g, walls, cop, reach, landing, d);
      StillOutOfReach(g, walls, kept, landing, d);
    }
    OutOfReachKeepsRegion(g, walls + kept, dropped, landing);
    assert walls + kept + dropped == walls + x;
  }

  /** The forecast bounds every cage, capped or not, as long as the cap drops nothing
      that can be walked to. */
  lemma ForecastCoversEveryCage(
    g: nat, walls: set<Cell>, landing: Cell, cops: seq<Cell>, k: int, reach: nat, quota: int, room: nat, x: set<Cell>)
    requires Forecast(g, walls, landing, cops, k, reach, quota, room)
    requires forall j :: 0 <= j < |cops| ==> DropsHarmless(g, walls, cops[j], reach, landing)
    requires Cage(g, walls, landing, cops, k, reach, quota, x)
    ensures room <= Region(g, walls + x, landing)
  {
    hide Forecast, DropsHarmless, AllFeared, Sites;
    var j :| 0 <= j < |cops| && AllFeared(g, walls, cops[j], reach, landing, x);
    var kept := x * Members(Sites(g, walls, cops[j], reach, landing));
    DropsDoNotMatter(g, walls, cops[j], reach, landing, x, kept);
    SubsetSmaller(kept, x);
    assert Buildable(g, walls, landing, cops, k, reach, quota, kept);
    ForecastCovers(g, walls, landing, cops, k, reach, quota, room, kept);
  }

  /** In particular when no more than the cap qualify. */
  lemma SlackCapIsHarmless(g: nat, walls: set<Cell>, cop: Cell, reach: nat, landing: Cell)
    requires SiteCount(g, walls, cop, reach) <= 14
    ensures DropsHarmless(g, walls, cop, reach, landing)
  {
    CapHolds(g, walls, cop, reach, landing);
  }

  /** The least over the completed cuts and over every cage: with a slack cap the
      forecast is the true worst case. */
  lemma SlackCapIsExact(
    g: nat, walls: set<Cell>, landing: Cell, cops: seq<Cell>, k: int, reach: nat, quota: int, room: nat)
    requires Forecast(g, walls, landing, cops, k, reach, quota, room)
    requires forall j :: 0 <= j < |cops| ==> SiteCount(g, walls, cops[j], reach) <= 14
    ensures room <= LineCompletionRegion(g, walls, landing, quota)
    ensures forall x :: Cage(g, walls, landing, cops, k, reach, quota, x) ==> room <= Region(g, walls + x, landing)
    ensures room == LineCompletionRegion(g, walls, landing, quota)
      || exists x :: Cage(g, walls, landing, cops, k, reach, quota, x) && room == Region(g, walls + x, landing)
  {
    hide Forecast, Cage, DropsHarmless, SiteCount, Region;
    ForecastIsLeast(g, walls, landing, cops, k, reach, quota, room);
    forall j | 0 <= j < |cops| ensures DropsHarmless(g, walls, cops[j], reach, landing) {
      SlackCapIsHarmless(g, walls, cops[j], reach, landing);
    }
    forall x | Cage(g, walls, landing, cops, k, reach, quota, x) ensures room <= Region(g, walls + x, landing) {
      ForecastCoversEveryCage(g, walls, landing, cops, k, reach, quota, room, x);
    }
    if room != LineCompletionRegion(g, walls, landing, quota) {
      var x :| Buildable(g, walls, landing, cops, k, reach, quota, x) && room == Region(g, walls + x, landing);
      BuildableIsCage(g, walls, landing, cops, k, reach, quota, x);
    }
  }

  lemma BuildableIsCage(
    g: nat, walls: set<Cell>, landing: Cell, cops: seq<Cell>, k: int, reach: nat, quota: int, x: set<Cell>)
    requires Buildable(g, walls, landing, cops, k, reach, quota, x)
    ensures Cage(g, walls, landing, cops, k, reach, quota, x)
  {
    hide Sites, Feared;
    var j :| 0 <= j < |cops| && x <= Members(Sites(g, walls, cops[j], reach, landing));
    forall c | c in x ensures Feared(g, walls, cops[j], reach, landing, c) {
      SitesAreFeared(g, walls, cops[j], reach, landing, c);
    }
    assert AllFeared(g, walls, cops[j], reach, landing, x);
  }

  // --- when the kept sites are all out of reach -----------------------------------

  /** Nothing on the site list can be walked to from the landing. */
  ghost predicate KeepsHarmless(g: nat, walls: set<Cell>, cop: Cell, reach: nat, landing: Cell) {
    forall c :: c in Sites(g, walls, cop, reach, landing) ==> !Reachable(g, walls, landing, c)
  }

  /** Then the forecast sees no danger at all. */
  lemma SeesNoDanger(
    g: nat, walls: set<Cell>, landing: Cell, cops: seq<Cell>, k: int, reach: nat, quota: int, room: nat)
    requires Forecast(g, walls, landing, cops, k, reach, quota, room) && CompletionExtra(g, walls, quota).None?
    requires forall j :: 0 <= j < |cops| ==> KeepsHarmless(g, walls, cops[j], reach, landing)
    ensures room == Region(g, walls, landing)
  {
    hide Forecast, KeepsHarmless, Sites, Region;
    ForecastIsLeast(g, walls, landing, cops, k, reach, quota, room);
    if room != LineCompletionRegion(g, walls, landing, quota) {
      var x :| Buildable(g, walls, landing, cops, k, reach, quota, x) && room == Region(g, walls + x, landing);
      var j :| 0 <= j < |cops| && x <= Members(Sites(g, walls, cops[j], reach, landing));
      HarmlessSites(g, walls, cops[j], reach, landing, x);
    }
  }

  lemma HarmlessSites(g: nat, walls: set<Cell>, cop: Cell, reach: nat, landing: Cell, x: set<Cell>)
    requires KeepsHarmless(g, walls, cop, reach, landing) && x <= Members(Sites(g, walls, cop, reach, landing))
    ensures Region(g, walls + x, landing) == Region(g, walls, landing)
  {
    hide Sites, Reachable;
    forall d | d in x ensures d != landing && !Reachable(g, walls, landing, d) {
      SitesAreFeared(g, walls, cop, reach, landing, d);
      FearedIsScanned(g, walls, cop, reach, landing, d);
    }
    OutOfReachKeepsRegion(g, walls, x, landing);
  }

  /** ... and it bounds every cage if and only if what was dropped is out of reach too. */
  lemma BlindForecast(
    g: nat, walls: set<Cell>, landing: Cell, cops: seq<Cell>, k: int, reach: nat, quota: int, room: nat)
    requires Forecast(g, walls, landing, cops, k, reach, quota, room) && CompletionExtra(g, walls, quota).None?
    requires k > 0 && quota > 0
    requires forall j :: 0 <= j < |cops| ==> KeepsHarmless(g, walls, cops[j], reach, landing)
    ensures (forall x :: Cage(g, walls, landing, cops, k, reach, quota, x) ==> room <= Region(g, walls + x, landing))
      <==> forall j :: 0 <= j < |cops| ==> DropsHarmless(g, walls, cops[j], reach, landing)
  {
    hide Forecast, KeepsHarmless, DropsHarmless, CompletionExtra, Cage, Region;
    SeesNoDanger(g, walls, landing, cops, k, reach, quota, room);
    if forall j :: 0 <= j < |cops| ==> DropsHarmless(g, walls, cops[j], reach, landing) {
      forall x | Cage(g, walls, landing, cops, k, reach, quota, x) ensures room <= Region(g, walls + x, landing) {
        ForecastCoversEveryCage(g, walls, landing, cops, k, reach, quota, room, x);
      }
    } else {
      var j :| 0 <= j < |cops| && !DropsHarmless(g, walls, cops[j], reach, landing);
      var c := HarmfulDrop(g, walls, cops[j], reach, landing);
      OneWallCage(g, walls, landing, cops, k, reach, quota, j, c);
      WallTakesItsCell(g, walls, landing, c);
      assert Cage(g, walls, landing, cops, k, reach, quota, {c});
    }
  }

  lemma HarmfulDrop(g: nat, walls: set<Cell>, cop: Cell, reach: nat, landing: Cell) returns (c: Cell)
    requires !DropsHarmless(g, walls, cop, reach, landing)
    ensures Feared(g, walls, cop, reach, landing, c) && c != landing && Reachable(g, walls, landing, c)
  {
    hide Sites, Reachable;
    c :| Feared(g, walls, cop, reach, landing, c) && c !in Sites(g, walls, cop, reach, landing)
         && Reachable(g, walls, landing, c);
  }

  lemma OneWallCage(
    g: nat, walls: set<Cell>, landing: Cell, cops: seq<Cell>, k: int, reach: nat, quota: int, j: nat, c: Cell)
    requires k > 0 && quota > 0 && j < |cops| && Feared(g, walls, cops[j], reach, landing, c)
    ensures Cage(g, walls, landing, cops, k, reach, quota, {c})
  {
    hide Feared;
    assert AllFeared(g, walls, cops[j], reach, landing, {c});
  }

  // --- a board on which the cap hides the cutting wall ------------------------------

  const SIDE: nat := 7
  const CORNER: Cell := Cell(0, 0)
  const BELIEVED: Cell := Cell(5, 3)

  /** A corridor along the top and down the right edge, walled off from the rest. */
  function Corridor(): set<Cell> {
    {Cell(1, 0), Cell(1, 1), Cell(1, 2), Cell(1, 3), Cell(1, 4), Cell(1, 5),
     Cell(2, 5), Cell(3, 5), Cell(4, 5), Cell(5, 5), Cell(6, 5)}
  }

  predicate InCorridor(c: Cell) { InBounds(SIDE, c) && (c.row == 0 || c.col == 6) }

  lemma CorridorWalls(c: Cell)
    ensures c in Corridor() <==> (c.row == 1 && 0 <= c.col <= 5) || (c.col == 5 && 1 <= c.row <= 6)
  {
  }

  lemma {:induction false} CorridorHoldsAll(c: Cell, n: nat)
    requires Within(SIDE, Corridor(), CORNER, c, n)
    ensures InCorridor(c)
    decreases n
  {
    hide Corridor;
    if c != CORNER {
      if Within(SIDE, Corridor(), CORNER, c, n - 1) {
        CorridorHoldsAll(c, n - 1);
      } else {
        var d :| Beside(d, c) && Within(SIDE, Corridor(), CORNER, d, n - 1);
        CorridorHoldsAll(d, n - 1);
        CorridorWalls(c);
      }
    }
  }

  lemma WithinStep(g: nat, walls: set<Cell>, src: Cell, d: Cell, c: Cell, n: nat)
    requires Within(g, walls, src, d, n) && Beside(d, c) && Passable(g, walls, c)
    ensures Within(g, walls, src, c, n + 1)
  {
  }

  lemma {:induction false} AlongTheTop(col: nat)
    requires col < SIDE
    ensures Within(SIDE, Corridor(), CORNER, Cell(0, col), col)
  {
    hide Within, Corridor;
    if col > 0 {
      AlongTheTop(col - 1);
      CorridorWalls(Cell(0, col));
      WithinStep(SIDE, Corridor(), CORNER, Cell(0, col - 1), Cell(0, col), col - 1);
    } else {
      AtTheCorner();
    }
  }

  lemma AtTheCorner()
    ensures Within(SIDE, Corridor(), CORNER, CORNER, 0)
  {
  }

  lemma {:induction false} DownTheEdge(row: nat)
    requires row < SIDE
    ensures Within(SIDE, Corridor(), CORNER, Cell(row, 6), row + 6)
  {
    hide Within, Corridor;
    if row > 0 {
      DownTheEdge(row - 1);
      CorridorWalls(Cell(row, 6));
      WithinStep(SIDE, Corridor(), CORNER, Cell(row - 1, 6), Cell(row, 6), row + 5);
    } else {
      AlongTheTop(6);
    }
  }

  /** Feared places nearer to the landing than any in the corridor. */
  predicate Decoy(c: Cell) {
    2 <= c.row < SIDE && 0 <= c.col <= 4 && Distance(c, BELIEVED) <= 3 && Distance(c, CORNER) <= 9
  }

  lemma DecoyIsFeared(c: Cell)
    requires Decoy(c)
    ensures Feared(SIDE, Corridor(), BELIEVED, 4, CORNER, c)
  {
    hide Corridor;
    CorridorWalls(c);
  }

  function UpperDecoys(): set<Cell> {
    {Cell(2, 3), Cell(3, 2), Cell(3, 3), Cell(3, 4), Cell(4, 1), Cell(4, 2), Cell(4, 3)}
  }

  function LowerDecoys(): set<Cell> {
    {Cell(5, 0), Cell(5, 1), Cell(5, 2), Cell(5, 3), Cell(5, 4), Cell(6, 1), Cell(6, 2)}
  }

  lemma SevenAbove()
    ensures |UpperDecoys()| == 7 && forall c :: c in UpperDecoys() ==> Decoy(c) && c.row < 5
  {
  }

  lemma SevenBelow()
    ensures |LowerDecoys()| == 7 && forall c :: c in LowerDecoys() ==> Decoy(c) && c.row >= 5
  {
  }

  /** Fourteen of them use up the cap. */
  lemma FourteenDecoys() returns (decoys: set<Cell>)
    ensures |decoys| == SITE_CAP && forall c :: c in decoys ==> Decoy(c)
  {
    hide UpperDecoys, LowerDecoys, Decoy;
    SevenAbove();
    SevenBelow();
    decoys := UpperDecoys() + LowerDecoys();
    assert UpperDecoys() !! LowerDecoys();
  }

  /** A feared place in the corridor is further from the landing than all of those. */
  lemma CorridorIsFar(c: Cell)
    requires InCorridor(c) && Feared(SIDE, Corridor(), BELIEVED, 4, CORNER, c)
    ensures Distance(c, CORNER) >= 10
  {
    hide Corridor;
  }

  /** Once the cap is used up by nearer places, a further one is dropped. */
  lemma NearerFillTheCap(
    g: nat, walls: set<Cell>, cop: Cell, reach: nat, landing: Cell, nearer: set<Cell>, c: Cell)
    requires |nearer| >= SITE_CAP && c !in nearer
    requires forall d :: d in nearer ==>
      Feared(g, walls, cop, reach, landing, d) && Distance(d, landing) < Distance(c, landing)
    ensures c !in Sites(g, walls, cop, reach, landing)
  {
    hide SiteFor, Scan, Feared;
    var all := Scan(SiteFor(g, walls, cop, reach), g, g);
    var near := Sort(all, ByDistance(landing));
    SameMembers(all, ByDistance(landing));
    if c in Sites(g, walls, cop, reach, landing) {
      var kept := AllSites(g, walls, cop, reach, landing);
      var i :| 0 <= i < |kept| && kept[i] == c;
      forall d | d in nearer ensures d in Members(near[..i]) {
        FearedIsScanned(g, walls, cop, reach, landing, d);
        EarlierInOrder(near, landing, d, i);
      }
      PrefixMembers(near, i);
      SubsetSmaller(nearer, Members(near[..i]));
      assert false;
    }
  }

  lemma EarlierInOrder(near: seq<Cell>, landing: Cell, d: Cell, i: nat)
    requires SortedBy(near, ByDistance(landing)) && i < |near| && d in near
    requires Distance(d, landing) < Distance(near[i], landing)
    ensures d in near[..i]
  {
    var j :| 0 <= j < |near| && near[j] == d;
    var key := ByDistance(landing);
    assert key(near[j]) < key(near[i]);
    assert near[..i][j] == d;
  }

  lemma CorridorKeepsHarmless()
    ensures KeepsHarmless(SIDE, Corridor(), BELIEVED, 4, CORNER)
  {
    hide Sites, Feared, Corridor;
    var decoys := FourteenDecoys();
    forall c | c in decoys ensures Feared(SIDE, Corridor(), BELIEVED, 4, CORNER, c) { DecoyIsFeared(c); }
    forall c | c in Sites(SIDE, Corridor(), BELIEVED, 4, CORNER) ensures !Reachable(SIDE, Corridor(), CORNER, c) {
      SitesAreFeared(SIDE, Corridor(), BELIEVED, 4, CORNER, c);
      if Reachable(SIDE, Corridor(), CORNER, c) {
        var n: nat :| Within(SIDE, Corridor(), CORNER, c, n);
        CorridorHoldsAll(c, n);
        CorridorIsFar(c);
        NearerFillTheCap(SIDE, Corridor(), BELIEVED, 4, CORNER, decoys, c);
      }
    }
  }

  /** Both long walls lack one cell each; one wall of quota completes neither. */
  lemma NoCutDeclared()
    ensures CompletionExtra(SIDE, Corridor(), 1).None?
  {
    assert StartsRow(SIDE, Corridor(), Cell(1, 0)) && StartsColumn(SIDE, Corridor(), Cell(1, 5));
    assert Completes(SIDE, Corridor(), Cell(1, 6)) && Completes(SIDE, Corridor(), Cell(0, 5));
    SubsetSmaller({Cell(1, 6), Cell(0, 5)}, CutCells(SIDE, Corridor()));
  }

  /** The cap does hide cages.  On this 7x7 board with the configured reach of four and
      one wall of quota left, the forecast is the whole corridor, though a feared wall
      on the right edge cuts it. */
  lemma CapHidesTheCut(room: nat)
    requires Forecast(SIDE, Corridor(), CORNER, [BELIEVED], 1, 4, 1, room)
    ensures room == Region(SIDE, Corridor(), CORNER)
    ensures Cage(SIDE, Corridor(), CORNER, [BELIEVED], 1, 4, 1, {Cell(4, 6)})
    ensures Region(SIDE, Corridor() + {Cell(4, 6)}, CORNER) < room
  {
    hide Corridor, Forecast, KeepsHarmless, CompletionExtra, Region, Cage;
    NoCutDeclared();
    CorridorKeepsHarmless();
    SeesNoDanger(SIDE, Corridor(), CORNER, [BELIEVED], 1, 4, 1, room);
    DownTheEdge(4);
    assert Reachable(SIDE, Corridor(), CORNER, Cell(4, 6));
    WallTakesItsCell(SIDE, Corridor(), CORNER, Cell(4, 6));
    EdgeIsFeared();
    OneWallCage(SIDE, Corridor(), CORNER, [BELIEVED], 1, 4, 1, 0, Cell(4, 6));
  }

  lemma EdgeIsFeared()
    ensures Feared(SIDE, Corridor(), BELIEVED, 4, CORNER, Cell(4, 6))
  {
    hide Corridor;
    CorridorWalls(Cell(4, 6));
  }
}
