/** Breadth-first distances on the barrier-aware board. */
module Pathfind {
  import opened Primitives
  import opened Boards
  import opened Forensics

  const ORTHOGONAL: seq<Move> := [N, S, E, W]

  /** `d` is one orthogonal step from `c`. */
  predicate Beside(c: Cell, d: Cell) { Distance(c, d) == 1 }

  lemma BesideIsAMove(c: Cell, d: Cell)
    ensures Beside(c, d) <==> exists k :: 0 <= k < |ORTHOGONAL| && d == Applied(ORTHOGONAL[k], c)
  {
    if Beside(c, d) {
      if d.row < c.row { assert d == Applied(ORTHOGONAL[0], c); }
      else if d.row > c.row { assert d == Applied(ORTHOGONAL[1], c); }
      else if d.col > c.col { assert d == Applied(ORTHOGONAL[2], c); }
      else { assert d == Applied(ORTHOGONAL[3], c); }
    }
  }

  /** A walk from `src`: every later cell is passable and one step further. */
  ghost predicate Path(g: nat, walls: set<Cell>, src: Cell, p: seq<Cell>) {
    && p != [] && p[0] == src
    && forall i :: 0 < i < |p| ==> Passable(g, walls, p[i]) && Beside(p[i - 1], p[i])
  }

  ghost predicate PathTo(g: nat, walls: set<Cell>, src: Cell, c: Cell, n: nat) {
    exists p :: Path(g, walls, src, p) && |p| == n + 1 && p[n] == c
  }

  /** Reachable in at most `n` steps. */
  ghost predicate Within(g: nat, walls: set<Cell>, src: Cell, c: Cell, n: nat)
    decreases n
  {
    c == src || (n > 0 && (Within(g, walls, src, c, n - 1) ||
                           (Passable(g, walls, c) && exists d :: Beside(d, c) && Within(g, walls, src, d, n - 1))))
  }

  lemma {:induction false} WithinMono(g: nat, walls: set<Cell>, src: Cell, c: Cell, m: nat, n: nat)
    requires m <= n && Within(g, walls, src, c, m)
    ensures Within(g, walls, src, c, n)
  {
    if m < n {
      WithinMono(g, walls, src, c, m, n - 1);
    }
  }

  /** Layers are paths: within n steps means a path of at most n steps. */
  lemma {:induction false} WithinIsPath(g: nat, walls: set<Cell>, src: Cell, c: Cell, n: nat)
    ensures Within(g, walls, src, c, n) <==> exists k :: 0 <= k <= n && PathTo(g, walls, src, c, k)
    decreases n
  {
    if Within(g, walls, src, c, n) {
      if c == src {
        assert Path(g, walls, src, [src]);
        assert PathTo(g, walls, src, c, 0);
      } else if Within(g, walls, src, c, n - 1) {
        WithinIsPath(g, walls, src, c, n - 1);
      } else {
        var d :| Beside(d, c) && Within(g, walls, src, d, n - 1);
        WithinIsPath(g, walls, src, d, n - 1);
        var k :| 0 <= k <= n - 1 && PathTo(g, walls, src, d, k);
        var p :| Path(g, walls, src, p) && |p| == k + 1 && p[k] == d;
        assert Path(g, walls, src, p + [c]);
        assert PathTo(g, walls, src, c, k + 1);
      }
    }
    forall k | 0 <= k <= n && PathTo(g, walls, src, c, k) ensures Within(g, walls, src, c, n) {
      PathIsWithin(g, walls, src, c, k);
      WithinMono(g, walls, src, c, k, n);
    }
  }

  lemma {:induction false} PathIsWithin(g: nat, walls: set<Cell>, src: Cell, c: Cell, k: nat)
    requires PathTo(g, walls, src, c, k)
    ensures Within(g, walls, src, c, k)
    decreases k
  {
    var p :| Path(g, walls, src, p) && |p| == k + 1 && p[k] == c;
    if k > 0 {
      assert Path(g, walls, src, p[..k]);
      assert PathTo(g, walls, src, p[k - 1], k - 1);
      PathIsWithin(g, walls, src, p[k - 1], k - 1);
    }
  }

  /** `n` is the length of a shortest path to `c`. */
  ghost predicate Shortest(g: nat, walls: set<Cell>, src: Cell, c: Cell, n: nat) {
    Within(g, walls, src, c, n) && (n > 0 ==> !Within(g, walls, src, c, n - 1))
  }

  ghost predicate Reachable(g: nat, walls: set<Cell>, src: Cell, c: Cell) {
    exists n: nat :: Within(g, walls, src, c, n)
  }

  ghost function RegionSet(g: nat, walls: set<Cell>, src: Cell): set<Cell> {
    set c | c in Cells(g) + {src} && Reachable(g, walls, src, c)
  }

  /** The size of the region open from `src`. */
  ghost function Region(g: nat, walls: set<Cell>, src: Cell): nat { |RegionSet(g, walls, src)| }

  lemma {:induction false} WithinOnBoard(g: nat, walls: set<Cell>, src: Cell, c: Cell, n: nat)
    requires Within(g, walls, src, c, n)
    ensures c in Cells(g) + {src}
  {
    if c != src && Within(g, walls, src, c, n - 1) {
      WithinOnBoard(g, walls, src, c, n - 1);
    }
  }

  /** More walls never open a way or shorten one. */
  lemma {:induction false} WallsOnlySlow(g: nat, walls: set<Cell>, more: set<Cell>, src: Cell, c: Cell, n: nat)
    requires walls <= more && Within(g, more, src, c, n)
    ensures Within(g, walls, src, c, n)
    decreases n
  {
    if c != src {
      if Within(g, more, src, c, n - 1) {
        WallsOnlySlow(g, walls, more, src, c, n - 1);
      } else {
        var d :| Beside(d, c) && Within(g, more, src, d, n - 1);
        WallsOnlySlow(g, walls, more, src, d, n - 1);
      }
    }
  }

  lemma SubsetSmaller<T>(a: set<T>, b: set<T>)
    requires a <= b
    ensures |a| <= |b|
  {
    assert b == a + (b - a);
  }

  /** BFS monotonicity: added walls shrink the region and lengthen distances. */
  lemma WallsShrinkRegion(g: nat, walls: set<Cell>, more: set<Cell>, src: Cell)
    requires walls <= more
    ensures RegionSet(g, more, src) <= RegionSet(g, walls, src)
    ensures 1 <= Region(g, more, src) <= Region(g, walls, src)
    ensures forall c, m: nat, n: nat :: Shortest(g, more, src, c, m) && Shortest(g, walls, src, c, n) ==> n <= m
  {
    forall c | c in RegionSet(g, more, src) ensures c in RegionSet(g, walls, src) {
      var n: nat :| Within(g, more, src, c, n);
      WallsOnlySlow(g, walls, more, src, c, n);
    }
    SubsetSmaller(RegionSet(g, more, src), RegionSet(g, walls, src));
    assert Within(g, more, src, src, 0);
    SubsetSmaller({src}, RegionSet(g, more, src));
    forall c, m: nat, n: nat | Shortest(g, more, src, c, m) && Shortest(g, walls, src, c, n) ensures n <= m {
      WallsOnlySlow(g, walls, more, src, c, m);
      if m < n {
        WithinMono(g, walls, src, c, m, n - 1);
      }
    }
  }

  /** Everything recorded is at its true distance. */
  ghost predicate TrueDistances(g: nat, walls: set<Cell>, src: Cell, dist: map<Cell, nat>) {
    && src in dist && dist[src] == 0 && dist.Keys <= Cells(g) + {src}
    && forall c :: c in dist ==> Shortest(g, walls, src, c, dist[c])
  }

  /** Everything recorded but not waiting has all its neighbours recorded. */
  ghost predicate Expanded(g: nat, walls: set<Cell>, dist: map<Cell, nat>, waiting: set<Cell>) {
    forall c, d :: c in dist && c !in waiting && Beside(c, d) && Passable(g, walls, d) ==> d in dist
  }

  /** The queue is in order of distance and spans at most two layers. */
  ghost predicate Ordered(dist: map<Cell, nat>, queue: seq<Cell>) {
    && (forall i :: 0 <= i < |queue| ==> queue[i] in dist)
    && (forall i, j :: 0 <= i < j < |queue| ==> dist[queue[i]] <= dist[queue[j]] <= dist[queue[0]] + 1)
  }

  /** An expanded cell of a nearer layer has all its open neighbours recorded. */
  lemma NeighbourRecorded(
    g: nat, walls: set<Cell>, src: Cell, dist: map<Cell, nat>, waiting: set<Cell>, d: Cell, c: Cell, n: nat)
    requires TrueDistances(g, walls, src, dist) && Expanded(g, walls, dist, waiting)
    requires forall x :: x in waiting && x in dist ==> dist[x] > n
    requires d in dist && Within(g, walls, src, d, n) && Beside(d, c) && Passable(g, walls, c)
    ensures c in dist
  {
    hide Within, Passable, Beside, Cells;
    if dist[d] > n {
      assert Shortest(g, walls, src, d, dist[d]);
      WithinMono(g, walls, src, d, n, dist[d] - 1);
    }
    assert d !in waiting;
  }

  /** If everything nearer than layer `n` is expanded, layer `n` is recorded. */
  lemma {:induction false} LayerRecorded(
    g: nat, walls: set<Cell>, src: Cell, dist: map<Cell, nat>, waiting: set<Cell>, c: Cell, n: nat)
    requires TrueDistances(g, walls, src, dist) && Expanded(g, walls, dist, waiting)
    requires forall x :: x in waiting && x in dist ==> dist[x] >= n
    requires Within(g, walls, src, c, n)
    ensures c in dist
    decreases n
  {
    hide Expanded, Shortest, Beside, Passable, Cells;
    if c != src {
      if Within(g, walls, src, c, n - 1) {
        LayerRecorded(g, walls, src, dist, waiting, c, n - 1);
      } else {
        var d :| Beside(d, c) && Within(g, walls, src, d, n - 1);
        LayerRecorded(g, walls, src, dist, waiting, d, n - 1);
        NeighbourRecorded(g, walls, src, dist, waiting, d, c, n - 1);
      }
    }
  }

  /** A cell first met next to the head of the queue lies exactly one step further. */
  lemma NewcomerShortest(g: nat, walls: set<Cell>, src: Cell, dist: map<Cell, nat>, waiting: set<Cell>, cell: Cell,
      next: Cell)
    requires TrueDistances(g, walls, src, dist) && Expanded(g, walls, dist, waiting) && cell in dist
    requires forall x :: x in waiting && x in dist ==> dist[x] >= dist[cell]
    requires Beside(cell, next) && Passable(g, walls, next) && next !in dist
    ensures Shortest(g, walls, src, next, dist[cell] + 1)
  {
    if Within(g, walls, src, next, dist[cell]) {
      LayerRecorded(g, walls, src, dist, waiting, next, dist[cell]);
    }
  }

  function Members(s: seq<Cell>): set<Cell> { set c | c in s }

  /** The state of the search: `queue` holds what is recorded but not expanded. */
  ghost predicate Searching(g: nat, walls: set<Cell>, src: Cell, dist: map<Cell, nat>, queue: seq<Cell>) {
    TrueDistances(g, walls, src, dist) && Ordered(dist, queue) && Expanded(g, walls, dist, Members(queue))
  }

  lemma TrueDistancesGrow(g: nat, walls: set<Cell>, src: Cell, dist: map<Cell, nat>, next: Cell, n: nat)
    requires TrueDistances(g, walls, src, dist) && next !in dist && InBounds(g, next)
    requires Shortest(g, walls, src, next, n)
    ensures TrueDistances(g, walls, src, dist[next := n])
  {
    hide Within;
  }

  lemma OrderedGrows(dist: map<Cell, nat>, queue: seq<Cell>, next: Cell)
    requires queue != [] && Ordered(dist, queue) && next !in dist
    ensures Ordered(dist[next := dist[queue[0]] + 1], queue + [next])
  {
    var dist', queue' := dist[next := dist[queue[0]] + 1], queue + [next];
    forall i, j | 0 <= i < j < |queue'| ensures dist'[queue'[i]] <= dist'[queue'[j]] <= dist'[queue'[0]] + 1 {
      assert i < |queue| && queue'[i] == queue[i];
      assert i == 0 || dist[queue[0]] <= dist[queue[i]] <= dist[queue[0]] + 1;
    }
  }

  lemma ExpandedGrows(g: nat, walls: set<Cell>, dist: map<Cell, nat>, queue: seq<Cell>, next: Cell, n: nat)
    requires Expanded(g, walls, dist, Members(queue))
    ensures Expanded(g, walls, dist[next := n], Members(queue + [next]))
  {
    hide Beside, Passable;
    assert Members(queue + [next]) == Members(queue) + {next};
  }

  lemma RecordNewcomer(g: nat, walls: set<Cell>, src: Cell, dist: map<Cell, nat>, queue: seq<Cell>, next: Cell)
    requires queue != [] && Searching(g, walls, src, dist, queue)
    requires Beside(queue[0], next) && Passable(g, walls, next) && next !in dist
    ensures queue[0] in dist
    ensures Searching(g, walls, src, dist[next := dist[queue[0]] + 1], queue + [next])
  {
    hide Within, Shortest, Expanded, TrueDistances, Beside;
    var cell := queue[0];
    NewcomerShortest(g, walls, src, dist, Members(queue), cell, next);
    TrueDistancesGrow(g, walls, src, dist, next, dist[cell] + 1);
    OrderedGrows(dist, queue, next);
    ExpandedGrows(g, walls, dist, queue, next, dist[cell] + 1);
  }

  lemma HeadExpanded(g: nat, walls: set<Cell>, src: Cell, dist: map<Cell, nat>, queue: seq<Cell>)
    requires queue != [] && Searching(g, walls, src, dist, queue)
    requires forall j :: 0 <= j < |ORTHOGONAL| && Passable(g, walls, Applied(ORTHOGONAL[j], queue[0])) ==>
      Applied(ORTHOGONAL[j], queue[0]) in dist
    ensures Searching(g, walls, src, dist, queue[1..])
  {
    forall c, d | c in dist && c !in Members(queue[1..]) && Beside(c, d) && Passable(g, walls, d) ensures d in dist {
      if c == queue[0] {
        BesideIsAMove(c, d);
      } else {
        assert c !in Members(queue) by {
          assert queue == [queue[0]] + queue[1..];
        }
      }
    }
  }

  /** Take the head of the queue and record its open, unrecorded neighbours. */
  method Expand(g: nat, walls: set<Cell>, src: Cell, dist: map<Cell, nat>, queue: seq<Cell>)
    returns (dist': map<Cell, nat>, queue': seq<Cell>)
    requires queue != [] && Searching(g, walls, src, dist, queue)
    ensures Searching(g, walls, src, dist', queue')
    ensures dist.Keys <= dist'.Keys && (dist'.Keys == dist.Keys ==> |queue'| < |queue|)
  {
    hide Within, Shortest, Expanded, TrueDistances;
    var cell := queue[0];
    dist', queue' := dist, queue[1..];
    assert queue == [cell] + queue';
    for k := 0 to |ORTHOGONAL|
      invariant Searching(g, walls, src, dist', [cell] + queue')
      invariant forall j :: 0 <= j < k && Passable(g, walls, Applied(ORTHOGONAL[j], cell)) ==>
        Applied(ORTHOGONAL[j], cell) in dist'
      invariant dist.Keys <= dist'.Keys && (dist'.Keys == dist.Keys ==> |queue'| < |queue|)
    {
      var next := Applied(ORTHOGONAL[k], cell);
      BesideIsAMove(cell, next);
      if Passable(g, walls, next) && next !in dist' {
        RecordNewcomer(g, walls, src, dist', [cell] + queue', next);
        assert ([cell] + queue') + [next] == [cell] + (queue' + [next]);
        dist' := dist'[next := dist'[cell] + 1];
        queue' := queue' + [next];
        assert next in dist'.Keys && next !in dist.Keys;
      }
    }
    HeadExpanded(g, walls, src, dist', [cell] + queue');
    assert ([cell] + queue')[1..] == queue';
  }

  /** With nothing left to expand, everything reachable is recorded. */
  lemma SearchDone(g: nat, walls: set<Cell>, src: Cell, dist: map<Cell, nat>)
    requires Searching(g, walls, src, dist, [])
    ensures dist.Keys == RegionSet(g, walls, src)
  {
    forall c | c in RegionSet(g, walls, src) ensures c in dist {
      var n: nat :| Within(g, walls, src, c, n);
      LayerRecorded(g, walls, src, dist, Members([]), c, n);
    }
  }

  method BfsDistances(g: nat, walls: set<Cell>, src: Cell) returns (dist: map<Cell, nat>)
    ensures dist.Keys == RegionSet(g, walls, src)
    ensures forall c :: c in dist ==> Shortest(g, walls, src, c, dist[c])
  {
    dist := map[src := 0];
    var queue := [src];
    while queue != []
      invariant Searching(g, walls, src, dist, queue)
      decreases Cells(g) + {src} - dist.Keys, |queue|
    {
      dist, queue := Expand(g, walls, src, dist, queue);
    }
    SearchDone(g, walls, src, dist);
  }
}
