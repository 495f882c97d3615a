/** The belief follows the trail: what an accepted frame does to the odds of two cells. */
module Following {
  import opened Primitives
  import opened Boards
  import opened Scent
  import opened Forensics
  import opened Belief
  import opened Decode

  /** Mass in product form: positive numbers in the same ratio. */
  lemma CrossMultiplied(x: real, y: real, a: real, b: real, t: real)
    requires x > 0.0 && y > 0.0 && t > 0.0
    ensures (x * a / t) * y > (y * b / t) * x <==> a > b
    ensures (x * a / t) * y == (y * b / t) * x <==> a == b
  {
    var k := x * y / t;
    Positive(x, y, t);
    assert (x * a / t) * y == k * a && (y * b / t) * x == k * b by {
      Rearranged(x, y, a, t);
      Rearranged(y, x, b, t);
      assert x * y == y * x;
    }
    if a > b { Scales(k, a, b); }
    if b > a { Scales(k, b, a); }
  }

  lemma Positive(x: real, y: real, t: real)
    requires x > 0.0 && y > 0.0 && t > 0.0
    ensures x * y / t > 0.0
  {
    Product(x, y);
    Quotient(x * y, t);
  }

  lemma Rearranged(x: real, y: real, a: real, t: real)
    requires t > 0.0
    ensures (x * a / t) * y == (x * y / t) * a
  {
    var u := 1.0 / t;
    assert x * a / t == x * a * u;
    assert x * y / t == x * y * u;
    assert (x * a * u) * y == (x * y * u) * a;
  }

  lemma Scales(k: real, a: real, b: real)
    requires k > 0.0 && a > b
    ensures k * a > k * b
  {
    Product(k, a - b);
    assert k * a - k * b == k * (a - b);
  }

  // --- totals -------------------------------------------------------------------

  lemma {:induction false} RowBelow(row: seq<real>, row': seq<real>)
    requires |row| == |row'| && forall i :: 0 <= i < |row| ==> row[i] <= row'[i]
    ensures RowSum(row) <= RowSum(row')
  {
    if row != [] {
      RowBelow(row[..|row| - 1], row'[..|row| - 1]);
    }
  }

  lemma {:induction false} RowsBelow(f: Field, f': Field)
    requires |f| == |f'| && forall i :: 0 <= i < |f| ==> RowSum(f[i]) <= RowSum(f'[i])
    ensures Total(f) <= Total(f')
  {
    if f != [] {
      RowsBelow(f[..|f| - 1], f'[..|f| - 1]);
    }
  }

  lemma TotalBelow(g: nat, f: Field, f': Field)
    requires Square(g, f) && Square(g, f') && forall r, c :: 0 <= r < g && 0 <= c < g ==> f[r][c] <= f'[r][c]
    ensures Total(f) <= Total(f')
  {
    forall r | 0 <= r < g ensures RowSum(f[r]) <= RowSum(f'[r]) { RowBelow(f[r], f'[r]); }
    RowsBelow(f, f');
  }

  /** One positive cell makes a non-negative grid's total positive. */
  lemma TotalPositive(g: nat, f: Field, c: Cell)
    requires Square(g, f) && NonNegative(g, f) && InBounds(g, c) && f[c.row][c.col] > 0.0
    ensures Total(f) >= f[c.row][c.col]
  {
    var rest := Put(g, f, c, 0.0);
    TotalPut(g, f, c, 0.0);
    SilenceTotal(g, g);
    assert Silence(g)[..g] == Silence(g);
    forall r, k | 0 <= r < g && 0 <= k < g ensures Silence(g)[r][k] <= rest[r][k] {
      assert At(g, rest, Cell(r, k)) == if Cell(r, k) == c then 0.0 else At(g, f, Cell(r, k));
    }
    TotalBelow(g, Silence(g), rest);
  }

  // --- odds ---------------------------------------------------------------------

  /** The posterior `p'` of the prior `p` after an accepted frame `f`: between open cells
      the odds go with the evidence, and a wall holds nobody. */
  ghost predicate FollowsTrail(g: nat, walls: set<Cell>, p: Field, f: Field, p': Field)
    requires Square(g, p) && Square(g, f) && Square(g, p')
  {
    && (forall c, d :: OpenBelieved(g, walls, p, c) && OpenBelieved(g, walls, p, d) ==>
          OddsGoWith(p, p', c, d, At(g, ScentEvidence(g, walls, f), c), At(g, ScentEvidence(g, walls, f), d)))
    && ((exists c :: OpenBelieved(g, walls, p, c)) ==>
          forall w :: w in walls && InBounds(g, w) ==> p'[w.row][w.col] == 0.0)
  }

  predicate OpenBelieved(g: nat, walls: set<Cell>, p: Field, c: Cell)
    requires Square(g, p)
  {
    InBounds(g, c) && c !in walls && p[c.row][c.col] > 0.0
  }

  /** The odds of `c` against `d` rise exactly when `c` has more evidence, and stay when
      both have the same. */
  predicate OddsGoWith(p: Field, p': Field, c: Cell, d: Cell, ec: real, ed: real)
    requires 0 <= c.row < |p| == |p'| && 0 <= d.row < |p|
    requires 0 <= c.col < |p[c.row]| == |p'[c.row]| && 0 <= d.col < |p[d.row]| == |p'[d.row]|
  {
    var (pc, pd) := (p[c.row][c.col], p[d.row][d.col]);
    var (qc, qd) := (p'[c.row][c.col], p'[d.row][d.col]);
    (qc * pd > qd * pc <==> ec > ed) && (qc * pd == qd * pc <==> ec == ed)
  }

  /** The weighed prior keeps every cell non-negative, and what is open and believed positive. */
  lemma WeighedByScent(g: nat, walls: set<Cell>, p: Field, f: Field)
    requires Square(g, p) && Square(g, f) && NonNegative(g, p)
    ensures var evidence := ScentEvidence(g, walls, f);
      var weighed := Weighed(g, p, ScentWeight(g, walls, evidence));
      && NonNegative(g, weighed)
      && (forall c :: InBounds(g, c) && c !in walls ==>
            weighed[c.row][c.col] == p[c.row][c.col] * (0.05 + At(g, evidence, c)) && At(g, evidence, c) >= 0.0)
      && (forall c :: InBounds(g, c) && c in walls ==> weighed[c.row][c.col] == 0.0)
  {
    hide ScentEvidence, ScentWeight, Weighed;
    var evidence := ScentEvidence(g, walls, f);
    var weighed := Weighed(g, p, ScentWeight(g, walls, evidence));
    forall c | InBounds(g, c)
      ensures weighed[c.row][c.col] >= 0.0 && At(g, evidence, c) >= 0.0
      ensures weighed[c.row][c.col] == if c in walls then 0.0 else p[c.row][c.col] * (0.05 + At(g, evidence, c))
    {
      WeighedCell(g, walls, p, f, c);
    }
    forall r, c | 0 <= r < g && 0 <= c < g ensures weighed[r][c] >= 0.0 {
      assert InBounds(g, Cell(r, c));
    }
  }

  lemma WeighedCell(g: nat, walls: set<Cell>, p: Field, f: Field, c: Cell)
    requires Square(g, p) && Square(g, f) && NonNegative(g, p) && InBounds(g, c)
    ensures var evidence := ScentEvidence(g, walls, f);
      var x := Weighed(g, p, ScentWeight(g, walls, evidence))[c.row][c.col];
      && x >= 0.0 && At(g, evidence, c) >= 0.0
      && x == if c in walls then 0.0 else p[c.row][c.col] * (0.05 + At(g, evidence, c))
  {
    hide ScentEvidence;
    assert c == Cell(c.row, c.col);
    EvidenceSupport(g, walls, f, c);
    Product(p[c.row][c.col], 0.05 + At(g, ScentEvidence(g, walls, f), c));
  }

  /** What normalising the weighed prior comes to, once something open is believed. */
  lemma PosteriorCells(g: nat, walls: set<Cell>, p: Field, f: Field, c: Cell)
    requires g > 0 && Square(g, p) && Square(g, f) && NonNegative(g, p) && OpenBelieved(g, walls, p, c)
    ensures var evidence := ScentEvidence(g, walls, f);
      var weighed := Weighed(g, p, ScentWeight(g, walls, evidence));
      var p' := Reweighed(g, p, ScentWeight(g, walls, evidence));
      && Total(weighed) > 0.0
      && (forall d :: InBounds(g, d) ==> p'[d.row][d.col] == weighed[d.row][d.col] / Total(weighed))
  {
    hide ScentEvidence, ScentWeight, Weighed, Total, Uniform;
    var evidence := ScentEvidence(g, walls, f);
    WeighedByScent(g, walls, p, f);
    Product(p[c.row][c.col], 0.05 + At(g, evidence, c));
    TotalPositive(g, Weighed(g, p, ScentWeight(g, walls, evidence)), c);
  }

  lemma OddsFollow(g: nat, walls: set<Cell>, p: Field, f: Field, c: Cell, d: Cell)
    requires g > 0 && Square(g, p) && Square(g, f) && NonNegative(g, p)
    requires OpenBelieved(g, walls, p, c) && OpenBelieved(g, walls, p, d)
    ensures var evidence := ScentEvidence(g, walls, f);
      OddsGoWith(p, Reweighed(g, p, ScentWeight(g, walls, evidence)), c, d, At(g, evidence, c), At(g, evidence, d))
  {
    hide ScentEvidence, ScentWeight, Weighed, Total, Reweighed, At;
    var evidence := ScentEvidence(g, walls, f);
    PosteriorCells(g, walls, p, f, c);
    WeighedByScent(g, walls, p, f);
    CrossMultiplied(p[c.row][c.col], p[d.row][d.col], 0.05 + At(g, evidence, c), 0.05 + At(g, evidence, d),
                    Total(Weighed(g, p, ScentWeight(g, walls, evidence))));
  }

  lemma WallsEmptied(g: nat, walls: set<Cell>, p: Field, f: Field, c: Cell, w: Cell)
    requires g > 0 && Square(g, p) && Square(g, f) && NonNegative(g, p)
    requires OpenBelieved(g, walls, p, c) && w in walls && InBounds(g, w)
    ensures Reweighed(g, p, ScentWeight(g, walls, ScentEvidence(g, walls, f)))[w.row][w.col] == 0.0
  {
    hide ScentEvidence, ScentWeight, Weighed, Total, Reweighed;
    PosteriorCells(g, walls, p, f, c);
    WeighedByScent(g, walls, p, f);
  }

  /** What observe_scent does to any prior follows the trail. */
  lemma TrailFollowed(g: nat, walls: set<Cell>, p: Field, f: Field)
    requires g > 0 && Square(g, p) && Square(g, f) && NonNegative(g, p)
    ensures FollowsTrail(g, walls, p, f, Reweighed(g, p, ScentWeight(g, walls, ScentEvidence(g, walls, f))))
  {
    hide ScentEvidence, ScentWeight, Reweighed, OddsGoWith, OpenBelieved, NonNegative;
    var evidence := ScentEvidence(g, walls, f);
    forall c, d | OpenBelieved(g, walls, p, c) && OpenBelieved(g, walls, p, d)
      ensures InBounds(g, c) && InBounds(g, d)
      ensures OddsGoWith(p, Reweighed(g, p, ScentWeight(g, walls, evidence)), c, d,
                         At(g, evidence, c), At(g, evidence, d))
    {
      OpenInBounds(g, walls, p, c);
      OpenInBounds(g, walls, p, d);
      OddsFollow(g, walls, p, f, c, d);
    }
    forall c, w | OpenBelieved(g, walls, p, c) && w in walls && InBounds(g, w)
      ensures Reweighed(g, p, ScentWeight(g, walls, evidence))[w.row][w.col] == 0.0
    {
      WallsEmptied(g, walls, p, f, c, w);
    }
  }

  lemma OpenInBounds(g: nat, walls: set<Cell>, p: Field, c: Cell)
    requires Square(g, p) && OpenBelieved(g, walls, p, c)
    ensures InBounds(g, c)
  {
  }

  // --- one fresh reading ----------------------------------------------------------

  /** A frame that reads nothing but one spike, at the clamp, on an open cell. */
  predicate LoneSpike(g: nat, walls: set<Cell>, f: Field, e: Cell)
    requires Square(g, f)
  {
    && InBounds(g, e) && e !in walls && Saturated(f[e.row][e.col])
    && forall r, c :: 0 <= r < g && 0 <= c < g && Cell(r, c) != e ==> f[r][c] <= 0.0
  }

  /** Its evidence lies on that cell and nowhere else. */
  lemma SpikeEvidence(g: nat, walls: set<Cell>, f: Field, e: Cell, d: Cell)
    requires Square(g, f) && LoneSpike(g, walls, f, e)
    ensures At(g, ScentEvidence(g, walls, f), d) > 0.0 <==> d == e
    ensures At(g, ScentEvidence(g, walls, f), d) >= 0.0
  {
    hide ScentEvidence, DecodedReach, Saturated;
    EvidenceSupport(g, walls, f, d);
    ReachZeroIsSaturated(At(g, f, e));
    if d == e {
      assert SpeaksFor(g, walls, f, e, d);
    } else {
      forall c ensures !SpeaksFor(g, walls, f, c, d) {
        if InBounds(g, c) && c != e {
          assert c == Cell(c.row, c.col);
          SilentDecodes(At(g, f, c));
        }
      }
    }
  }

  lemma SilentDecodes(v: real)
    requires v <= 0.0
    ensures DecodedReach(v) == None
  {
  }

  lemma ShareAlgebra(x: real, rest: real, up: real, floor: real)
    ensures up * x * (rest + x) - x * (floor * rest + up * x) == (x * rest) * (up - floor)
  {
  }

  /** The prior with one cell weighed up and all others alike. */
  lemma ShareOfOne(x: real, rest: real, up: real, floor: real)
    requires 0.0 < x && 0.0 < rest && floor > 0.0 && up > floor
    ensures floor * rest + up * x > 0.0 && up * x / (floor * rest + up * x) > x / (rest + x)
  {
    ShareGap(x, rest, up, floor);
    LargerQuotient(up * x, floor * rest + up * x, x, rest + x);
  }

  lemma ShareGap(x: real, rest: real, up: real, floor: real)
    requires 0.0 < x && 0.0 < rest && floor > 0.0 && up > floor
    ensures floor * rest + up * x > 0.0 && up * x * (rest + x) > x * (floor * rest + up * x)
  {
    Product(floor, rest);
    Product(up, x);
    Product(x, rest);
    Product(x * rest, up - floor);
    ShareAlgebra(x, rest, up, floor);
  }

  lemma SignOf(x: real, k: real)
    requires k > 0.0 && x * k > 0.0
    ensures x > 0.0
  {
    if x <= 0.0 {
      Product(-x, k);
    }
  }

  lemma LargerQuotient(a: real, t: real, b: real, s: real)
    requires t > 0.0 && s > 0.0 && a * s > b * t
    ensures a / t > b / s
  {
    var u, v := a / t, b / s;
    Product(t, s);
    QuotientGap(u, t, v, s);
    SignOf(u - v, t * s);
  }

  lemma QuotientGap(u: real, t: real, v: real, s: real)
    ensures (u - v) * (t * s) == (u * t) * s - (v * s) * t
  {
  }

  lemma ScaledCell(g: nat, p: Field, floor: real, r: int, c: int)
    requires Square(g, p) && floor > 0.0 && 0 <= r < g && 0 <= c < g
    ensures 1.0 / floor > 0.0 && Scaled(g, p, 1.0 / floor)[r][c] == p[r][c] * floor
  {
    Reciprocal(p[r][c], floor, 1.0 / floor);
  }

  lemma ScaledWhole(g: nat, p: Field, floor: real)
    requires Square(g, p) && floor > 0.0
    ensures 1.0 / floor > 0.0 && Total(Scaled(g, p, 1.0 / floor)) == Total(p) * floor
  {
    Reciprocal(Total(p), floor, 1.0 / floor);
    ScaledTotal(g, p, 1.0 / floor);
  }

  /** The total of a prior with its walls emptied, the spike's cell weighed by `up` and
      every other cell by `floor`. */
  lemma SpikeTotal(g: nat, p: Field, weighed: Field, e: Cell, floor: real, up: real)
    requires Square(g, p) && Square(g, weighed) && InBounds(g, e) && 0.0 < floor < up
    requires weighed[e.row][e.col] == p[e.row][e.col] * up
    requires forall r, c :: 0 <= r < g && 0 <= c < g && Cell(r, c) != e ==> weighed[r][c] <= p[r][c] * floor
    ensures Total(weighed) <= floor * (Total(p) - p[e.row][e.col]) + up * p[e.row][e.col]
  {
    hide Scaled, Total;
    ScaledWhole(g, p, floor);
    var faint := Scaled(g, p, 1.0 / floor);
    var top := Put(g, faint, e, p[e.row][e.col] * up);
    TotalPut(g, faint, e, p[e.row][e.col] * up);
    ScaledCell(g, p, floor, e.row, e.col);
    forall r, c | 0 <= r < g && 0 <= c < g ensures weighed[r][c] <= top[r][c] {
      ScaledCell(g, p, floor, r, c);
      assert At(g, top, Cell(r, c)) == if Cell(r, c) == e then p[e.row][e.col] * up else At(g, faint, Cell(r, c));
    }
    TotalBelow(g, weighed, top);
  }

  lemma Reciprocal(x: real, floor: real, k: real)
    requires floor > 0.0 && k == 1.0 / floor
    ensures k > 0.0 && x / k == x * floor
  {
    assert k * floor == 1.0;
    assert (x * floor) * k == x;
  }

  /** With a lone spike the weighed prior is faint everywhere else. */
  lemma SpikeWeighs(g: nat, walls: set<Cell>, p: Field, f: Field, e: Cell)
    requires Square(g, p) && Square(g, f) && NonNegative(g, p) && LoneSpike(g, walls, f, e)
    ensures var evidence := ScentEvidence(g, walls, f);
      var weighed, up := Weighed(g, p, ScentWeight(g, walls, evidence)), 0.05 + At(g, evidence, e);
      && up > 0.05 && weighed[e.row][e.col] == p[e.row][e.col] * up
      && forall r, c :: 0 <= r < g && 0 <= c < g && Cell(r, c) != e ==> weighed[r][c] <= p[r][c] * 0.05
  {
    hide ScentEvidence, ScentWeight, Weighed, LoneSpike;
    var weighed := Weighed(g, p, ScentWeight(g, walls, ScentEvidence(g, walls, f)));
    WeighedByScent(g, walls, p, f);
    SpikeEvidence(g, walls, f, e, e);
    SpikeOpen(g, walls, f, e);
    forall r, c | 0 <= r < g && 0 <= c < g && Cell(r, c) != e ensures weighed[r][c] <= p[r][c] * 0.05 {
      SpikeEvidence(g, walls, f, e, Cell(r, c));
      assert InBounds(g, Cell(r, c));
      Product(p[r][c], 0.05);
    }
  }

  lemma SpikeOpen(g: nat, walls: set<Cell>, f: Field, e: Cell)
    requires Square(g, f) && LoneSpike(g, walls, f, e)
    ensures InBounds(g, e) && e !in walls
  {
  }

  /** A lone fresh reading draws the belief to its cell, as long as another open cell is
      believed as well. */
  lemma SpikeRaises(g: nat, walls: set<Cell>, p: Field, f: Field, e: Cell, d: Cell)
    requires g > 0 && Square(g, p) && Square(g, f) && Distribution(g, p) && LoneSpike(g, walls, f, e)
    requires OpenBelieved(g, walls, p, e) && OpenBelieved(g, walls, p, d) && d != e
    ensures Reweighed(g, p, ScentWeight(g, walls, ScentEvidence(g, walls, f)))[e.row][e.col] > p[e.row][e.col]
  {
    hide ScentEvidence, ScentWeight, Weighed, Total, Reweighed, LoneSpike;
    var evidence := ScentEvidence(g, walls, f);
    var weighed := Weighed(g, p, ScentWeight(g, walls, evidence));
    PosteriorCells(g, walls, p, f, e);
    SpikeWeighs(g, walls, p, f, e);
    SpikeTotal(g, p, weighed, e, 0.05, 0.05 + At(g, evidence, e));
    TwoCells(g, p, e, d);
    LargerShare(p[e.row][e.col], 0.05 + At(g, evidence, e), Total(weighed));
  }

  lemma LargerShare(x: real, up: real, total: real)
    requires 0.0 < x < 1.0 && up > 0.05 && 0.0 < total <= 0.05 * (1.0 - x) + up * x
    ensures x * up / total > x
  {
    ShareOfOne(x, 1.0 - x, up, 0.05);
    Product(up, x);
    SmallerTotal(up * x, total, 0.05 * (1.0 - x) + up * x);
    assert x / (1.0 - x + x) == x;
  }

  lemma SmallerTotal(a: real, t: real, s: real)
    requires a > 0.0 && 0.0 < t <= s
    ensures a / t >= a / s
  {
    if t < s {
      Scales(a, s, t);
      LargerQuotient(a, t, a, s);
    }
  }

  lemma TwoCells(g: nat, p: Field, c: Cell, d: Cell)
    requires Square(g, p) && NonNegative(g, p) && InBounds(g, c) && InBounds(g, d) && c != d && p[d.row][d.col] > 0.0
    ensures Total(p) > p[c.row][c.col]
  {
    var rest := Put(g, p, c, 0.0);
    TotalPut(g, p, c, 0.0);
    forall r, k | 0 <= r < g && 0 <= k < g ensures rest[r][k] >= 0.0 {
      assert At(g, rest, Cell(r, k)) == if Cell(r, k) == c then 0.0 else At(g, p, Cell(r, k));
    }
    assert At(g, rest, d) == At(g, p, d);
    TotalPositive(g, rest, d);
  }

  // --- the other tiers ------------------------------------------------------------

  /** The odds of `c` against `d` went up from `p` to `p'`, ... */
  predicate OddsRise(p: Field, p': Field, c: Cell, d: Cell)
    requires 0 <= c.row < |p| == |p'| && 0 <= d.row < |p|
    requires 0 <= c.col < |p[c.row]| == |p'[c.row]| && 0 <= d.col < |p[d.row]| == |p'[d.row]|
  {
    p'[c.row][c.col] * p[d.row][d.col] > p'[d.row][d.col] * p[c.row][c.col]
  }

  /** ... or stayed what they were. */
  predicate OddsStay(p: Field, p': Field, c: Cell, d: Cell)
    requires 0 <= c.row < |p| == |p'| && 0 <= d.row < |p|
    requires 0 <= c.col < |p[c.row]| == |p'[c.row]| && 0 <= d.col < |p[d.row]| == |p'[d.row]|
  {
    p'[c.row][c.col] * p[d.row][d.col] == p'[d.row][d.col] * p[c.row][c.col]
  }

  predicate Believes(g: nat, p: Field, c: Cell)
    requires Square(g, p)
  {
    InBounds(g, c) && p[c.row][c.col] > 0.0
  }

  /** What normalising a weighed prior comes to, once a cell of positive weight is
      believed. */
  lemma ReweighedCells(g: nat, p: Field, w: Cell -> real, c: Cell)
    requires g > 0 && Square(g, p) && NonNegative(g, p) && Believes(g, p, c)
    requires w(c) > 0.0 && forall x :: InBounds(g, x) ==> w(x) >= 0.0
    ensures Total(Weighed(g, p, w)) > 0.0 && NonNegative(g, Weighed(g, p, w))
    ensures forall x :: InBounds(g, x) ==>
      Reweighed(g, p, w)[x.row][x.col] == p[x.row][x.col] * w(x) / Total(Weighed(g, p, w))
  {
    hide Total, Uniform;
    var weighed := Weighed(g, p, w);
    forall r, k | 0 <= r < g && 0 <= k < g ensures weighed[r][k] >= 0.0 {
      assert InBounds(g, Cell(r, k));
      Product(p[r][k], w(Cell(r, k)));
    }
    assert c == Cell(c.row, c.col);
    Product(p[c.row][c.col], w(c));
    TotalPositive(g, weighed, c);
    forall x | InBounds(g, x)
      ensures Reweighed(g, p, w)[x.row][x.col] == p[x.row][x.col] * w(x) / Total(weighed)
    {
      assert x == Cell(x.row, x.col);
    }
  }

  /** Any weighing moves the odds as the weights stand. */
  lemma OddsGoWithWeights(g: nat, p: Field, w: Cell -> real, c: Cell, d: Cell)
    requires g > 0 && Square(g, p) && NonNegative(g, p) && Believes(g, p, c) && Believes(g, p, d)
    requires w(c) > 0.0 && forall x :: InBounds(g, x) ==> w(x) >= 0.0
    ensures OddsRise(p, Reweighed(g, p, w), c, d) <==> w(c) > w(d)
    ensures OddsStay(p, Reweighed(g, p, w), c, d) <==> w(c) == w(d)
  {
    hide Total, Reweighed, Weighed;
    var p' := Reweighed(g, p, w);
    ReweighedCells(g, p, w, c);
    QuotientsGoWith(p[c.row][c.col], p[d.row][d.col], p'[c.row][c.col], p'[d.row][d.col], w(c), w(d),
                    Total(Weighed(g, p, w)));
  }

  lemma QuotientsGoWith(x: real, y: real, x': real, y': real, a: real, b: real, t: real)
    requires x > 0.0 && y > 0.0 && t > 0.0 && x' == x * a / t && y' == y * b / t
    ensures x' * y > y' * x <==> a > b
    ensures x' * y == y' * x <==> a == b
  {
    CrossMultiplied(x, y, a, b, t);
  }

  /** A pin raises its cell against every other, and moves nothing else. */
  lemma PinRaises(g: nat, p: Field, pin: Cell, c: Cell, d: Cell)
    requires g > 0 && Square(g, p) && NonNegative(g, p) && Believes(g, p, c) && Believes(g, p, d) && c != d
    ensures c == pin ==> OddsRise(p, Boosted(g, p, Some(pin)), c, d)
    ensures c != pin && d != pin ==> OddsStay(p, Boosted(g, p, Some(pin)), c, d)
  {
    OddsGoWithWeights(g, p, PinWeight(pin), c, d);
  }

  /** A declared wall raises the open cells beside it against all that are not, and
      leaves nobody on the wall. */
  lemma WallRaisesNeighbours(g: nat, p: Field, walls: set<Cell>, wall: Cell, c: Cell, d: Cell)
    requires g > 0 && Square(g, p) && NonNegative(g, p) && Believes(g, p, c) && Believes(g, p, d)
    requires c != wall && d != wall && (exists x :: Passable(g, walls, x) && Distance(wall, x) == 1)
    ensures var beside := (x: Cell) => Passable(g, walls, x) && Distance(wall, x) == 1;
      && (beside(c) && !beside(d) ==> OddsRise(p, Located(g, p, walls, wall), c, d))
      && (beside(c) == beside(d) ==> OddsStay(p, Located(g, p, walls, wall), c, d))
      && (InBounds(g, wall) ==> Located(g, p, walls, wall)[wall.row][wall.col] == 0.0)
  {
    hide StepsFrom;
    StepsFacts(g, walls, wall);
    var x :| Passable(g, walls, x) && Distance(wall, x) == 1;
    assert x in StepsFrom(g, walls, wall);
    OddsGoWithWeights(g, p, OriginWeight(g, walls, wall), c, d);
    if InBounds(g, wall) {
      WallEmptied(g, p, OriginWeight(g, walls, wall), c, wall);
    }
  }

  lemma WallEmptied(g: nat, p: Field, w: Cell -> real, c: Cell, wall: Cell)
    requires g > 0 && Square(g, p) && NonNegative(g, p) && Believes(g, p, c) && InBounds(g, wall)
    requires w(c) > 0.0 && w(wall) == 0.0 && forall x :: InBounds(g, x) ==> w(x) >= 0.0
    ensures Reweighed(g, p, w)[wall.row][wall.col] == 0.0
  {
    hide Total, Reweighed, Weighed;
    ReweighedCells(g, p, w, c);
  }
}
