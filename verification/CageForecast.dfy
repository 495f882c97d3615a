/** The k-wall cage forecast: the worst region a landing can be left with when a
    believed cop may still place walls near it. */
module CageForecast {
  import opened Primitives
  import opened Boards
  import opened Forensics
  import opened Sorting
  import opened Pathfind

  const NEAR_REACH: nat := 3
  const SITE_CAP: nat := 14

  // --- wall sites -------------------------------------------------------------

  /** On the rim, or next to a wall: where a line-builder extends a cut. */
  predicate Anchored(g: nat, walls: set<Cell>, c: Cell) {
    || c.row == 0 || c.row == g - 1 || c.col == 0 || c.col == g - 1
    || Applied(N, c) in walls || Applied(S, c) in walls || Applied(E, c) in walls || Applied(W, c) in walls
  }

  function SiteFor(g: nat, walls: set<Cell>, cop: Cell, reach: nat): Cell -> bool {
    (c: Cell) => Distance(c, cop) <= reach && Passable(g, walls, c)
      && (Distance(c, cop) <= NEAR_REACH || Anchored(g, walls, c))
  }

  function ByDistance(landing: Cell): Cell -> int { (c: Cell) => Distance(c, landing) }

  /** _sites: the SITE_CAP sites nearest to the landing. */
  function AllSites(g: nat, walls: set<Cell>, cop: Cell, reach: nat, landing: Cell): seq<Cell> {
    var near := Sort(Scan(SiteFor(g, walls, cop, reach), g, g), ByDistance(landing));
    if |near| <= SITE_CAP then near else near[..SITE_CAP]
  }

  function Without(s: seq<Cell>, c: Cell): (r: seq<Cell>)
    ensures forall x :: x in r <==> x in s && x != c
  {
    if s == [] then []
    else
      assert s == [s[0]] + s[1..];
      if s[0] == c then Without(s[1..], c) else [s[0]] + Without(s[1..], c)
  }

  function Sites(g: nat, walls: set<Cell>, cop: Cell, reach: nat, landing: Cell): seq<Cell> {
    Without(AllSites(g, walls, cop, reach, landing), landing)
  }

  // --- combinations -----------------------------------------------------------

  /** Add `c` to each set of the list. */
  function WithEach(c: Cell, sets: seq<set<Cell>>): (r: seq<set<Cell>>)
    ensures |r| == |sets| && forall i :: 0 <= i < |sets| ==> r[i] == sets[i] + {c}
  {
    seq(|sets|, i requires 0 <= i < |sets| => sets[i] + {c})
  }

  /** The `n`-element choices from a list, in the order of itertools.combinations. */
  function Combinations(s: seq<Cell>, n: nat): seq<set<Cell>> {
    if n == 0 then [{}]
    else if s == [] then []
    else WithEach(s[0], Combinations(s[1..], n - 1)) + Combinations(s[1..], n)
  }

  lemma {:induction false} MembersBound(s: seq<Cell>)
    ensures |Members(s)| <= |s|
  {
    if s != [] {
      assert s == [s[0]] + s[1..];
      assert Members(s) == Members(s[1..]) + {s[0]};
      MembersBound(s[1..]);
    }
  }

  lemma ChoiceWithHead(s: seq<Cell>, n: nat, z: set<Cell>)
    requires n > 0 && s != [] && z in Combinations(s[1..], n - 1)
    ensures z + {s[0]} in Combinations(s, n)
  {
    var with, without := Combinations(s[1..], n - 1), Combinations(s[1..], n);
    var i :| 0 <= i < |with| && with[i] == z;
    assert WithEach(s[0], with)[i] in WithEach(s[0], with);
    InConcat(WithEach(s[0], with), without, z + {s[0]});
  }

  lemma ChoiceWithoutHead(s: seq<Cell>, n: nat, z: set<Cell>)
    requires n > 0 && s != [] && z in Combinations(s[1..], n)
    ensures z in Combinations(s, n)
  {
    InConcat(WithEach(s[0], Combinations(s[1..], n - 1)), Combinations(s[1..], n), z);
  }

  lemma TailMembers(s: seq<Cell>, x: set<Cell>)
    requires s != [] && x <= Members(s)
    ensures x - {s[0]} <= Members(s[1..])
  {
    assert s == [s[0]] + s[1..];
  }

  /** Without the head there is still room for `x` in the tail. */
  lemma TailRoom(s: seq<Cell>, n: nat, x: set<Cell>)
    requires s != [] && x <= Members(s) && s[0] !in x && |x| == n
    ensures x <= Members(s[1..]) && n <= |s[1..]|
  {
    TailMembers(s, x);
    assert x - {s[0]} == x;
    SubsetSmaller(x, Members(s[1..]));
    MembersBound(s[1..]);
  }

  lemma OneFewer(s: seq<Cell>, n: nat, x: set<Cell>)
    requires n > 0 && s != [] && |x| <= n && (s[0] in x || |x| < n)
    ensures |x - {s[0]}| <= n - 1
  {
    if s[0] in x {
      assert x == (x - {s[0]}) + {s[0]};
    } else {
      assert x - {s[0]} == x;
    }
  }

  /** The choices of one size cover every smaller set drawn from the list. */
  lemma {:induction false} CombinationsCover(s: seq<Cell>, n: nat, x: set<Cell>) returns (y: set<Cell>)
    requires n <= |s| && x <= Members(s) && |x| <= n
    ensures y in Combinations(s, n) && x <= y
    decreases s, 1
  {
    if n == 0 {
      y := {};
      assert x == {};
    } else if s[0] !in x && |x| == n {
      TailRoom(s, n, x);
      y := CombinationsCover(s[1..], n, x);
      ChoiceWithoutHead(s, n, y);
    } else {
      y := CoverWithHead(s, n, x);
    }
  }

  lemma CoverWithHead(s: seq<Cell>, n: nat, x: set<Cell>) returns (y: set<Cell>)
    requires 0 < n <= |s| && x <= Members(s) && |x| <= n && (s[0] in x || |x| < n)
    ensures y in Combinations(s, n) && x <= y
    decreases s, 0
  {
    TailMembers(s, x);
    OneFewer(s, n, x);
    var z := CombinationsCover(s[1..], n - 1, x - {s[0]});
    ChoiceWithHead(s, n, z);
    y := z + {s[0]};
  }

  lemma OneMember(z: set<Cell>, c: Cell)
    ensures |z + {c}| <= |z| + 1
  {
    assert z + {c} == z + ({c} - z);
  }

  /** Every choice is drawn from the list and has no more than `n` members. */
  lemma {:induction false} ChoiceAt(s: seq<Cell>, n: nat, i: nat)
    requires i < |Combinations(s, n)|
    ensures Combinations(s, n)[i] <= Members(s) && |Combinations(s, n)[i]| <= n
    decreases s
  {
    if n > 0 && s != [] {
      var with, without := Combinations(s[1..], n - 1), Combinations(s[1..], n);
      assert Members(s) == Members(s[1..]) + {s[0]} by {
        assert s == [s[0]] + s[1..];
      }
      if i < |with| {
        ChoiceAt(s[1..], n - 1, i);
        OneMember(with[i], s[0]);
        assert Combinations(s, n)[i] == with[i] + {s[0]};
      } else {
        ChoiceAt(s[1..], n, i - |with|);
        assert Combinations(s, n)[i] == without[i - |with|];
      }
    }
  }

  lemma ChoicesDrawn(s: seq<Cell>, n: nat, x: set<Cell>)
    requires x in Combinations(s, n)
    ensures x <= Members(s) && |x| <= n
  {
    var i :| 0 <= i < |Combinations(s, n)| && Combinations(s, n)[i] == x;
    ChoiceAt(s, n, i);
  }

  // --- declared cuts ----------------------------------------------------------

  /** The j-th cell of the i-th row or column. */
  function OnLine(i: int, horizontal: bool, j: int): Cell {
    if horizontal then Cell(i, j) else Cell(j, i)
  }

  predicate Triple(walls: set<Cell>, i: int, horizontal: bool, t: int) {
    && OnLine(i, horizontal, t) in walls && OnLine(i, horizontal, t + 1) in walls
    && OnLine(i, horizontal, t + 2) in walls
  }

  /** Three barriers in a row among the first `n` cells of a line. */
  predicate RunWithin(walls: set<Cell>, i: int, horizontal: bool, n: int) {
    exists t :: 0 <= t <= n - 3 && Triple(walls, i, horizontal, t)
  }

  /** A wall with walls on the two cells after it, in the row or in the column. */
  predicate StartsRow(g: nat, walls: set<Cell>, c: Cell) {
    0 <= c.col < g - 2 && c in walls && Cell(c.row, c.col + 1) in walls && Cell(c.row, c.col + 2) in walls
  }

  predicate StartsColumn(g: nat, walls: set<Cell>, c: Cell) {
    0 <= c.row < g - 2 && c in walls && Cell(c.row + 1, c.col) in walls && Cell(c.row + 2, c.col) in walls
  }

  lemma RunsStart(g: nat, walls: set<Cell>, i: int)
    ensures RunWithin(walls, i, true, g) <==> exists c :: StartsRow(g, walls, c) && c.row == i
    ensures RunWithin(walls, i, false, g) <==> exists c :: StartsColumn(g, walls, c) && c.col == i
  {
    if t :| 0 <= t <= g - 3 && Triple(walls, i, true, t) {
      assert StartsRow(g, walls, Cell(i, t));
    }
    if t :| 0 <= t <= g - 3 && Triple(walls, i, false, t) {
      assert StartsColumn(g, walls, Cell(t, i));
    }
    if c :| StartsRow(g, walls, c) && c.row == i {
      assert Triple(walls, i, true, c.col);
    }
    if c :| StartsColumn(g, walls, c) && c.col == i {
      assert Triple(walls, i, false, c.row);
    }
  }

  /** The open cells of every line that carries a run of three barriers. */
  ghost predicate Completes(g: nat, walls: set<Cell>, c: Cell) {
    && Passable(g, walls, c)
    && (|| (exists d :: StartsRow(g, walls, d) && d.row == c.row)
        || (exists d :: StartsColumn(g, walls, d) && d.col == c.col))
  }

  lemma CompletesByRun(g: nat, walls: set<Cell>, c: Cell)
    ensures Completes(g, walls, c) <==>
      Passable(g, walls, c) && (RunWithin(walls, c.row, true, g) || RunWithin(walls, c.col, false, g))
  {
    RunsStart(g, walls, c.row);
    RunsStart(g, walls, c.col);
  }

  ghost function CutCells(g: nat, walls: set<Cell>): set<Cell> {
    set c | c in Cells(g) && Completes(g, walls, c)
  }

  ghost function CompletionExtra(g: nat, walls: set<Cell>, quota: int): Option<set<Cell>> {
    if CutCells(g, walls) == {} || |CutCells(g, walls)| > quota then None else Some(CutCells(g, walls))
  }

  /** Fewer than three barriers after a gap make no run. */
  lemma ShortRun(walls: set<Cell>, i: int, horizontal: bool, start: int, end: int)
    requires 0 <= start <= end < start + 3 && (start > 0 ==> OnLine(i, horizontal, start - 1) !in walls)
    ensures RunWithin(walls, i, horizontal, end) <==> RunWithin(walls, i, horizontal, start)
  {
    if RunWithin(walls, i, horizontal, end) {
      var t :| 0 <= t <= end - 3 && Triple(walls, i, horizontal, t);
      assert start - 1 == t || start - 1 == t + 1 || start - 1 == t + 2 || t + 3 <= start;
    }
  }

  /** What closing a run at cell `end` adds to the runs seen so far. */
  lemma CloseRun(walls: set<Cell>, i: int, horizontal: bool, start: int, end: int)
    requires 0 <= start <= end && (start > 0 ==> OnLine(i, horizontal, start - 1) !in walls)
    requires forall t :: start <= t < end ==> OnLine(i, horizontal, t) in walls
    ensures RunWithin(walls, i, horizontal, end) <==> RunWithin(walls, i, horizontal, start) || end - start >= 3
    ensures OnLine(i, horizontal, end) !in walls ==>
      (RunWithin(walls, i, horizontal, end + 1) <==> RunWithin(walls, i, horizontal, end))
  {
    if end - start >= 3 {
      assert Triple(walls, i, horizontal, start);
    } else {
      ShortRun(walls, i, horizontal, start, end);
    }
  }

  /** One line of _runs: does it carry a maximal run of length three or more? */
  method HasRun(g: nat, walls: set<Cell>, i: int, horizontal: bool) returns (found: bool)
    ensures found <==> RunWithin(walls, i, horizontal, g)
    ensures found <==> exists c ::
      if horizontal then StartsRow(g, walls, c) && c.row == i else StartsColumn(g, walls, c) && c.col == i
  {
    RunsStart(g, walls, i);
    found := false;
    var run := 0;
    ghost var start := 0;
    for j := 0 to g + 1
      invariant 0 <= start && (j <= g ==> start + run == j) && (j == g + 1 ==> start == g)
      invariant forall t :: start <= t < start + run ==> OnLine(i, horizontal, t) in walls
      invariant j <= g && start > 0 ==> OnLine(i, horizontal, start - 1) !in walls
      invariant found <==> RunWithin(walls, i, horizontal, start)
    {
      if j < g && OnLine(i, horizontal, j) in walls {
        run := run + 1;
      } else {
        CloseRun(walls, i, horizontal, start, j);
        if run >= 3 {
          found := true;
        }
        run, start := 0, if j < g then j + 1 else g;
      }
    }
  }

  method CompletionWalls(g: nat, walls: set<Cell>, quota: int) returns (extra: Option<set<Cell>>)
    ensures extra == CompletionExtra(g, walls, quota)
  {
    var cells: set<Cell> := {};
    for side := 0 to 2
      invariant forall c :: c in cells <==>
        (Passable(g, walls, c) &&
         ((side > 0 && RunWithin(walls, c.col, false, g)) || (side > 1 && RunWithin(walls, c.row, true, g))))
    {
      for i := 0 to g
        invariant forall c :: c in cells <==>
          (Passable(g, walls, c) &&
           (((side > 0 || c.col < i) && RunWithin(walls, c.col, false, g)) ||
            (side == 1 && c.row < i && RunWithin(walls, c.row, true, g))))
      {
        var found := HasRun(g, walls, i, side == 1);
        if found {
          cells := cells + set c | c in Cells(g) && (if side == 1 then c.row else c.col) == i && Passable(g, walls, c);
        }
      }
    }
    forall c ensures c in cells <==> c in CutCells(g, walls) { CompletesByRun(g, walls, c); }
    assert cells == CutCells(g, walls);
    extra := if cells == {} || |cells| > quota then None else Some(cells);
  }

  ghost function LineCompletionRegion(g: nat, walls: set<Cell>, landing: Cell, quota: int): nat {
    match CompletionExtra(g, walls, quota)
    case None => Region(g, walls, landing)
    case Some(extra) => Region(g, walls + (extra - {landing}), landing)
  }

  /** The cuts are completed exactly when there are any and the quota affords them. */
  lemma CutsCompleted(g: nat, walls: set<Cell>, landing: Cell, quota: int, cuts: set<Cell>)
    requires forall c :: c in cuts <==>
      && 0 <= c.row < g && 0 <= c.col < g && c !in walls
      && exists d :: (StartsRow(g, walls, d) && d.row == c.row) || (StartsColumn(g, walls, d) && d.col == c.col)
    ensures LineCompletionRegion(g, walls, landing, quota) ==
      if 1 <= |cuts| <= quota then Region(g, walls + (cuts - {landing}), landing) else Region(g, walls, landing)
  {
    hide StartsRow, StartsColumn;
    assert cuts == CutCells(g, walls);
  }

  method CompletedRegion(g: nat, walls: set<Cell>, landing: Cell, quota: int) returns (room: nat)
    ensures room == LineCompletionRegion(g, walls, landing, quota)
  {
    var extra := CompletionWalls(g, walls, quota);
    var dist := BfsDistances(g, match extra case None => walls case Some(x) => walls + (x - {landing}), landing);
    assert |dist| == |dist.Keys|;
    room := |dist|;
  }

  // --- the forecast -----------------------------------------------------------

  /** The wall sets enumerated for one cop. */
  function ChoicesFor(g: nat, walls: set<Cell>, landing: Cell, cop: Cell, reach: nat, n: nat): seq<set<Cell>> {
    var sites := Sites(g, walls, cop, reach, landing);
    Combinations(sites, if n <= |sites| then n else |sites|)
  }

  /** A wall set the forecast looks at: drawn from the sites of one of the first `c`
      cops, of exactly the clamped size. */
  ghost predicate Considered(
    g: nat, walls: set<Cell>, landing: Cell, cops: seq<Cell>, c: nat, reach: nat, n: nat, x: set<Cell>)
    requires c <= |cops|
  {
    exists j :: 0 <= j < c && x in ChoicesFor(g, walls, landing, cops[j], reach, n)
  }

  /** `room` is the worst region over the completed cuts and the considered sets. */
  ghost predicate Worst(g: nat, walls: set<Cell>, landing: Cell, cops: seq<Cell>, reach: nat, quota: int, n: nat,
      room: nat) {
    && room <= LineCompletionRegion(g, walls, landing, quota)
    && (forall x :: Considered(g, walls, landing, cops, |cops|, reach, n, x) ==> room <= Region(g, walls + x, landing))
    && (|| room == LineCompletionRegion(g, walls, landing, quota)
        || exists x ::
          Considered(g, walls, landing, cops, |cops|, reach, n, x) && room == Region(g, walls + x, landing))
  }

  function Clamped(k: int, quota: int): int { if k < quota then k else quota }

  function Min(x: nat, y: nat): nat { if x < y then x else y }

  /** What k_wall_region returns. */
  ghost predicate Forecast(g: nat, walls: set<Cell>, landing: Cell, cops: seq<Cell>, k: int, reach: nat, quota: int,
      room: nat) {
    if Clamped(k, quota) <= 0 then
      room == Min(LineCompletionRegion(g, walls, landing, quota), Region(g, walls, landing))
    else Worst(g, walls, landing, cops, reach, quota, Clamped(k, quota), room)
  }

  /** The worst room found among the cops before `c`. */
  ghost predicate WorstSoFar(
    g: nat, walls: set<Cell>, landing: Cell, cops: seq<Cell>, reach: nat, quota: int, n: nat, c: nat, room: nat)
    requires c <= |cops|
  {
    && 1 <= room <= LineCompletionRegion(g, walls, landing, quota)
    && (forall x :: Considered(g, walls, landing, cops, c, reach, n, x) ==> room <= Region(g, walls + x, landing))
    && (|| room == LineCompletionRegion(g, walls, landing, quota)
        || exists x ::
          Considered(g, walls, landing, cops, |cops|, reach, n, x) && room == Region(g, walls + x, landing))
  }

  lemma RegionAtLeastOne(g: nat, walls: set<Cell>, landing: Cell)
    ensures Region(g, walls, landing) >= 1
  {
    WallsShrinkRegion(g, walls, walls, landing);
  }

  lemma CompletionBounds(g: nat, walls: set<Cell>, landing: Cell, quota: int)
    ensures 1 <= LineCompletionRegion(g, walls, landing, quota) <= Region(g, walls, landing)
  {
    RegionAtLeastOne(g, walls, landing);
    match CompletionExtra(g, walls, quota)
    case None =>
    case Some(extra) => WallsShrinkRegion(g, walls, walls + (extra - {landing}), landing);
  }

  /** A room of one cell is the worst there is, so stopping there changes nothing. */
  lemma CagedOutright(
    g: nat, walls: set<Cell>, landing: Cell, cops: seq<Cell>, reach: nat, quota: int, n: nat, c: nat, best: nat,
    room: nat)
    requires c < |cops| && WorstSoFar(g, walls, landing, cops, reach, quota, n, c, best) && room == 1
    requires room == best || exists x ::
          Considered(g, walls, landing, cops, |cops|, reach, n, x) && room == Region(g, walls + x, landing)
    ensures Worst(g, walls, landing, cops, reach, quota, n, room)
  {
    forall x | Considered(g, walls, landing, cops, |cops|, reach, n, x) ensures room <= Region(g, walls + x, landing) {
      RegionAtLeastOne(g, walls + x, landing);
    }
  }

  lemma CopAttained(
    g: nat, walls: set<Cell>, landing: Cell, cops: seq<Cell>, reach: nat, n: nat, c: nat, room: nat)
    requires c < |cops| && AmongChoices(g, walls, landing, ChoicesFor(g, walls, landing, cops[c], reach, n), room)
    ensures exists x ::
          Considered(g, walls, landing, cops, |cops|, reach, n, x) && room == Region(g, walls + x, landing)
  {
    var x :| x in ChoicesFor(g, walls, landing, cops[c], reach, n) && room == Region(g, walls + x, landing);
    assert Considered(g, walls, landing, cops, |cops|, reach, n, x);
  }

  lemma CopDone(
    g: nat, walls: set<Cell>, landing: Cell, cops: seq<Cell>, reach: nat, quota: int, n: nat, c: nat, best: nat,
    room: nat)
    requires c < |cops| && WorstSoFar(g, walls, landing, cops, reach, quota, n, c, best) && 1 <= room <= best
    requires room == best || AmongChoices(g, walls, landing, ChoicesFor(g, walls, landing, cops[c], reach, n), room)
    requires BelowChoices(g, walls, landing, ChoicesFor(g, walls, landing, cops[c], reach, n), room)
    ensures WorstSoFar(g, walls, landing, cops, reach, quota, n, c + 1, room)
  {
    if room != best {
      CopAttained(g, walls, landing, cops, reach, n, c, room);
    }
    forall x | Considered(g, walls, landing, cops, c + 1, reach, n, x) ensures room <= Region(g, walls + x, landing) {
      CopEarlier(g, walls, landing, cops, reach, n, c, x);
    }
  }

  lemma CopEarlier(g: nat, walls: set<Cell>, landing: Cell, cops: seq<Cell>, reach: nat, n: nat, c: nat, x: set<Cell>)
    requires c < |cops| && Considered(g, walls, landing, cops, c + 1, reach, n, x)
    ensures Considered(g, walls, landing, cops, c, reach, n, x) || x in ChoicesFor(g, walls, landing, cops[c], reach, n)
  {
    var j :| 0 <= j < c + 1 && x in ChoicesFor(g, walls, landing, cops[j], reach, n);
  }

  ghost predicate AmongChoices(g: nat, walls: set<Cell>, landing: Cell, choices: seq<set<Cell>>, room: nat) {
    exists x :: x in choices && room == Region(g, walls + x, landing)
  }

  ghost predicate BelowChoices(g: nat, walls: set<Cell>, landing: Cell, choices: seq<set<Cell>>, room: nat) {
    forall x :: x in choices ==> room <= Region(g, walls + x, landing)
  }

  /** The inner loop: the worst of `best` and the choices, stopping at an outright cage. */
  method WorstChoice(g: nat, walls: set<Cell>, landing: Cell, choices: seq<set<Cell>>, best: nat)
    returns (room: nat, caged: bool)
    requires best >= 1
    ensures 1 <= room <= best
    ensures room == best || AmongChoices(g, walls, landing, choices, room)
    ensures if caged then room == 1 else BelowChoices(g, walls, landing, choices, room)
  {
    room, caged := best, false;
    for i := 0 to |choices|
      invariant 1 <= room <= best
      invariant room == best || exists j :: 0 <= j < i && room == Region(g, walls + choices[j], landing)
      invariant forall j :: 0 <= j < i ==> room <= Region(g, walls + choices[j], landing)
    {
      var dist := BfsDistances(g, walls + choices[i], landing);
      assert |dist| == |dist.Keys|;
      RegionAtLeastOne(g, walls + choices[i], landing);
      if |dist| < room {
        room := |dist|;
        if room <= 1 {
          return room, true;
        }
      }
    }
  }

  method KWallRegion(g: nat, walls: set<Cell>, landing: Cell, cops: seq<Cell>, k: int, reach: nat, quota: int)
    returns (room: nat)
    ensures Forecast(g, walls, landing, cops, k, reach, quota, room)
  {
    var completed := CompletedRegion(g, walls, landing, quota);
    CompletionBounds(g, walls, landing, quota);
    var n := Clamped(k, quota);
    if n <= 0 {
      var dist := BfsDistances(g, walls, landing);
      assert |dist| == |dist.Keys|;
      return Min(completed, |dist|);
    }
    room := completed;
    for c := 0 to |cops|
      invariant WorstSoFar(g, walls, landing, cops, reach, quota, n, c, room)
    {
      var worst, caged := WorstChoice(g, walls, landing, ChoicesFor(g, walls, landing, cops[c], reach, n), room);
      if caged {
        if room > 1 {
          CopAttained(g, walls, landing, cops, reach, n, c, worst);
        }
        CagedOutright(g, walls, landing, cops, reach, quota, n, c, room, worst);
        return worst;
      }
      CopDone(g, walls, landing, cops, reach, quota, n, c, room, worst);
      room := worst;
    }
  }

  // --- what the forecast means --------------------------------------------------

  /** Any wall set a single believed cop could still build here: no matter how few. */
  ghost predicate Buildable(
    g: nat, walls: set<Cell>, landing: Cell, cops: seq<Cell>, k: int, reach: nat, quota: int, x: set<Cell>)
  {
    && (x == {} || (|x| <= k && |x| <= quota))
    && exists j :: 0 <= j < |cops| && x <= Members(Sites(g, walls, cops[j], reach, landing))
  }

  /** Though it only looks at sets of one size, the forecast bounds every smaller cage. */
  lemma ForecastCovers(
    g: nat, walls: set<Cell>, landing: Cell, cops: seq<Cell>, k: int, reach: nat, quota: int, room: nat, x: set<Cell>)
    requires Forecast(g, walls, landing, cops, k, reach, quota, room)
    requires Buildable(g, walls, landing, cops, k, reach, quota, x)
    ensures room <= Region(g, walls + x, landing)
  {
    hide Region, Sites, Combinations, LineCompletionRegion;
    var j :| 0 <= j < |cops| && x <= Members(Sites(g, walls, cops[j], reach, landing));
    var sites := Sites(g, walls, cops[j], reach, landing);
    if Clamped(k, quota) <= 0 {
      assert x == {} && walls + x == walls;
    } else {
      MembersBound(sites);
      SubsetSmaller(x, Members(sites));
      var y := CombinationsCover(sites, if Clamped(k, quota) <= |sites| then Clamped(k, quota) else |sites|, x);
      assert Considered(g, walls, landing, cops, |cops|, reach, Clamped(k, quota), y);
      WallsShrinkRegion(g, walls + x, walls + y, landing);
    }
  }

  /** The true worst case: least over the completed cuts and over every buildable set. */
  ghost predicate Least(g: nat, walls: set<Cell>, landing: Cell, cops: seq<Cell>, k: int, reach: nat, quota: int,
      room: nat) {
    && room <= LineCompletionRegion(g, walls, landing, quota)
    && (forall x :: Buildable(g, walls, landing, cops, k, reach, quota, x) ==> room <= Region(g, walls + x, landing))
    && (|| room == LineCompletionRegion(g, walls, landing, quota)
        || exists x :: Buildable(g, walls, landing, cops, k, reach, quota, x) && room == Region(g, walls + x, landing))
  }

  lemma ConsideredIsBuildable(
    g: nat, walls: set<Cell>, landing: Cell, cops: seq<Cell>, k: int, reach: nat, quota: int, x: set<Cell>)
    requires Clamped(k, quota) > 0 && Considered(g, walls, landing, cops, |cops|, reach, Clamped(k, quota), x)
    ensures Buildable(g, walls, landing, cops, k, reach, quota, x)
  {
    var j :| 0 <= j < |cops| && x in ChoicesFor(g, walls, landing, cops[j], reach, Clamped(k, quota));
    var sites := Sites(g, walls, cops[j], reach, landing);
    var n := if Clamped(k, quota) <= |sites| then Clamped(k, quota) else |sites|;
    ChoicesDrawn(sites, n, x);
  }

  lemma ForecastIsLeast(
    g: nat, walls: set<Cell>, landing: Cell, cops: seq<Cell>, k: int, reach: nat, quota: int, room: nat)
    requires Forecast(g, walls, landing, cops, k, reach, quota, room)
    ensures Least(g, walls, landing, cops, k, reach, quota, room)
  {
    CompletionBounds(g, walls, landing, quota);
    forall x | Buildable(g, walls, landing, cops, k, reach, quota, x) ensures room <= Region(g, walls + x, landing) {
      ForecastCovers(g, walls, landing, cops, k, reach, quota, room, x);
    }
    if Clamped(k, quota) > 0 && room != LineCompletionRegion(g, walls, landing, quota) {
      var x :| Considered(g, walls, landing, cops, |cops|, reach, Clamped(k, quota), x)
        && room == Region(g, walls + x, landing);
      ConsideredIsBuildable(g, walls, landing, cops, k, reach, quota, x);
    }
  }

  lemma CompletionMonotone(g: nat, walls: set<Cell>, landing: Cell, quota: int, quota': int)
    requires quota <= quota'
    ensures LineCompletionRegion(g, walls, landing, quota') <= LineCompletionRegion(g, walls, landing, quota)
  {
    CompletionBounds(g, walls, landing, quota');
  }

  /** More walls or more quota never raise the worst case, and it is always at least the
      landing cell itself.  With equal knobs this makes the forecast a function of its
      inputs, so stopping early at a room of one never changes the answer. */
  lemma ForecastMonotone(
    g: nat, walls: set<Cell>, landing: Cell, cops: seq<Cell>, reach: nat,
    k: int, quota: int, room: nat, k': int, quota': int, room': nat)
    requires k <= k' && quota <= quota'
    requires Forecast(g, walls, landing, cops, k, reach, quota, room)
    requires Forecast(g, walls, landing, cops, k', reach, quota', room')
    ensures 1 <= room' <= room
  {
    CompletionMonotone(g, walls, landing, quota, quota');
    CompletionBounds(g, walls, landing, quota');
    ForecastIsLeast(g, walls, landing, cops, k, reach, quota, room);
    ForecastIsLeast(g, walls, landing, cops, k', reach, quota', room');
    if room != LineCompletionRegion(g, walls, landing, quota) {
      var x :| Buildable(g, walls, landing, cops, k, reach, quota, x) && room == Region(g, walls + x, landing);
      assert Buildable(g, walls, landing, cops, k', reach, quota', x);
    }
    if room' != LineCompletionRegion(g, walls, landing, quota') {
      var x :| Buildable(g, walls, landing, cops, k', reach, quota', x) && room' == Region(g, walls + x, landing);
      RegionAtLeastOne(g, walls + x, landing);
    }
  }
}
