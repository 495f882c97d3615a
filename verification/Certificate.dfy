/** The survival certificate: a memoised, budgeted search over thief moves, cop
    moves and cop walls, proved equal to the plain game value and then to what the
    thief can force in the engine. */
module Certificate {
  import opened Primitives
  import opened Boards
  import opened Scent
  import opened Forensics

  const MOVES: seq<Move> := [Stay, N, S, E, W]

  function Index(m: Move): (i: nat)
    ensures i < |MOVES| && MOVES[i] == m
  {
    match m case Stay => 0 case N => 1 case S => 2 case E => 3 case W => 4
  }

  lemma AllMoves(m: Move)
    ensures m in {Stay, N, S, E, W}
  {
    match m case Stay => case N => case S => case E => case W =>
  }

  /** The board the search runs on; the walls it imagines are kept apart. */
  datatype Arena = Arena(grid: nat, walls: set<Cell>)

  /** One search node: who stands where, the walls imagined so far, turns to go. */
  datatype Node = Node(thief: Cell, cop: Cell, extra: set<Cell>, remaining: nat)

  /** Where the thief stands after a move that the turn itself does not punish. */
  predicate Lands(b: Arena, n: Node, m: Move) {
    var view := b.walls + n.extra;
    var landed := Applied(m, n.thief);
    LegalMove(b.grid, view, n.thief, m) && landed != n.cop && !Surrounded(b.grid, view, landed)
  }

  function AfterCopMove(n: Node, m: Move, cm: Move): Node
    requires n.remaining >= 1
  {
    Node(Applied(m, n.thief), Applied(cm, n.cop), n.extra, n.remaining - 1)
  }

  function AfterCopWall(n: Node, m: Move, wm: Move): Node
    requires n.remaining >= 1
  {
    Node(Applied(m, n.thief), n.cop, n.extra + {Applied(wm, n.cop)}, n.remaining - 1)
  }

  /** The reply `cm` of the cop, if legal, neither lands on the thief nor wins later. */
  ghost predicate OutlastsMove(b: Arena, n: Node, quota: int, m: Move, cm: Move)
    requires n.remaining >= 1
    decreases n.remaining, 0
  {
    LegalMove(b.grid, b.walls + n.extra, n.cop, cm) ==>
      Applied(cm, n.cop) != Applied(m, n.thief) && Survives(b, AfterCopMove(n, m, cm), quota)
  }

  /** A wall in direction `wm`, if legal, neither catches the thief nor wins later. */
  ghost predicate OutlastsWall(b: Arena, n: Node, quota: int, m: Move, wm: Move)
    requires n.remaining >= 1
    decreases n.remaining, 0
  {
    var view := b.walls + n.extra;
    var wall := Applied(wm, n.cop);
    Passable(b.grid, view, wall) ==>
      && wall != Applied(m, n.thief)
      && !Surrounded(b.grid, view + {wall}, Applied(m, n.thief))
      && Survives(b, AfterCopWall(n, m, wm), quota - 1)
  }

  ghost predicate OutlastsMoves(b: Arena, n: Node, quota: int, m: Move)
    requires n.remaining >= 1
    decreases n.remaining, 1
  {
    forall cm: Move :: OutlastsMove(b, n, quota, m, cm)
  }

  ghost predicate OutlastsWalls(b: Arena, n: Node, quota: int, m: Move)
    requires n.remaining >= 1
    decreases n.remaining, 1
  {
    forall wm: Move :: OutlastsWall(b, n, quota, m, wm)
  }

  /** The plain game value: `m` outlasts every cop reply.  `quota` is the number
      of walls the cop may still place at this node. */
  ghost predicate MoveSurvives(b: Arena, n: Node, quota: int, m: Move)
    decreases n.remaining, 2
  {
    && Lands(b, n, m)
    && (n.remaining > 1 ==> OutlastsMoves(b, n, quota, m) && (quota > 0 ==> OutlastsWalls(b, n, quota, m)))
  }

  ghost predicate Survives(b: Arena, n: Node, quota: int)
    decreases n.remaining, 3
  {
    exists m: Move :: MoveSurvives(b, n, quota, m)
  }

  datatype Settings = Settings(enabled: bool, maxSupport: nat, massThreshold: real, maxHorizon: nat, nodeCap: nat)

  function MassAtLeast(belief: Field, threshold: real): Cell -> bool {
    (c: Cell) => 0 <= c.row < |belief| && 0 <= c.col < |belief[c.row]| && belief[c.row][c.col] >= threshold
  }

  function SupportCells(g: nat, belief: Field, threshold: real): seq<Cell> {
    Scan(MassAtLeast(belief, threshold), g, g)
  }

  /** The support: every board cell believed at least so much, each once. */
  lemma SupportFacts(g: nat, belief: Field, threshold: real)
    requires Square(g, belief)
    ensures Distinct(SupportCells(g, belief, threshold))
    ensures forall c :: c in SupportCells(g, belief, threshold) <==>
      InBounds(g, c) && belief[c.row][c.col] >= threshold
  {
    ScanDistinct(MassAtLeast(belief, threshold), g, g);
    forall c ensures c in SupportCells(g, belief, threshold) <==> InBounds(g, c) && belief[c.row][c.col] >= threshold {
      ScanMembers(MassAtLeast(belief, threshold), g, g, c);
    }
  }

  /** _MOVE_RANK: orthogonal moves first, STAY last. */
  function Rank(m: Move): nat {
    match m case N => 0 case S => 1 case E => 2 case W => 3 case Stay => 4
  }

  datatype LockAnswer = Certified(move: Move) | Refused | Aborted

  class SurvivalCertificate {
    const settings: Settings
    var memo: map<Node, bool>
    var nodes: nat
    var certified: nat
    /** Some poll of the clock in this search found the deadline passed. */
    ghost var expirySeen: bool

    constructor (settings: Settings)
      ensures this.settings == settings && memo == map[] && certified == 0
    {
      this.settings := settings;
      memo, nodes, certified, expirySeen := map[], 0, 0, false;
    }

    /** The key omits the quota: it is the root quota minus the walls imagined. */
    ghost predicate MemoExact(b: Arena, root: int)
      reads this
    {
      forall n :: n in memo ==> (memo[n] <==> Survives(b, n, root - |n.extra|))
    }

    /** The budget holds: an answer leaves it unspent, running out is noticed at once, and
        nothing else stops the search. */
    twostate predicate KeepsBudget(answered: bool)
      reads this
    {
      && (old(nodes) <= settings.nodeCap ==> nodes <= settings.nodeCap + (if answered then 0 else 1))
      && (!answered ==> nodes > settings.nodeCap || expirySeen)
    }

    /** True when the budget is spent; `expired` stands for the wall clock. */
    method Tick(expired: bool) returns (spent: bool)
      modifies this`nodes, this`expirySeen
      ensures nodes == old(nodes) + 1 && (spent <==> nodes > settings.nodeCap || (nodes % 64 == 0 && expired))
      ensures if spent then nodes > settings.nodeCap || expirySeen else nodes <= settings.nodeCap
      ensures expirySeen == (old(expirySeen) || (nodes % 64 == 0 && expired))
    {
      nodes := nodes + 1;
      expirySeen := expirySeen || (nodes % 64 == 0 && expired);
      spent := nodes > settings.nodeCap || (nodes % 64 == 0 && expired);
    }

    /** _move_survives under the shared memo; Err when the budget ran out. */
    method SearchMove(b: Arena, n: Node, quota: int, m: Move, ghost root: int) returns (r: Result<bool>)
      requires MemoExact(b, root) && quota == root - |n.extra|
      modifies this`nodes, this`memo, this`expirySeen
      ensures MemoExact(b, root) && KeepsBudget(r.Ok?)
      ensures r.Ok? ==> (r.value <==> MoveSurvives(b, n, quota, m))
      decreases n.remaining, 2
    {
      var expired: bool := *;
      var spent := Tick(expired);
      if spent {
        return Err(Timeout);
      }
      if !Lands(b, n, m) {
        return Ok(false);
      }
      if n.remaining <= 1 {
        return Ok(true);
      }
      var outlasts :- SearchReplies(b, n, quota, m, root);
      if outlasts && quota > 0 {
        outlasts :- SearchWalls(b, n, quota, m, root);
      }
      return Ok(outlasts);
    }

    /** The cop's whole reply set of moves. */
    method SearchReplies(b: Arena, n: Node, quota: int, m: Move, ghost root: int) returns (r: Result<bool>)
      requires MemoExact(b, root) && quota == root - |n.extra| && n.remaining > 1
      modifies this`nodes, this`memo, this`expirySeen
      ensures MemoExact(b, root) && KeepsBudget(r.Ok?)
      ensures r.Ok? ==> (r.value <==> OutlastsMoves(b, n, quota, m))
      decreases n.remaining, 1
    {
      for i := 0 to |MOVES|
        invariant MemoExact(b, root) && KeepsBudget(true)
        invariant forall j :: 0 <= j < i ==> OutlastsMove(b, n, quota, m, MOVES[j])
      {
        var cm := MOVES[i];
        if !LegalMove(b.grid, b.walls + n.extra, n.cop, cm) {
          continue;
        }
        if Applied(cm, n.cop) == Applied(m, n.thief) {
          assert !OutlastsMove(b, n, quota, m, cm);
          return Ok(false);
        }
        var safe :- SearchNode(b, AfterCopMove(n, m, cm), quota, root);
        if !safe {
          assert !OutlastsMove(b, n, quota, m, cm);
          return Ok(false);
        }
      }
      forall cm: Move ensures OutlastsMove(b, n, quota, m, cm) {
        var j := Index(cm);
      }
      return Ok(true);
    }

    /** The law of barriers: the cop's own cell or an orthogonal neighbour. */
    method SearchWalls(b: Arena, n: Node, quota: int, m: Move, ghost root: int) returns (r: Result<bool>)
      requires MemoExact(b, root) && quota == root - |n.extra| && n.remaining > 1
      modifies this`nodes, this`memo, this`expirySeen
      ensures MemoExact(b, root) && KeepsBudget(r.Ok?)
      ensures r.Ok? ==> (r.value <==> OutlastsWalls(b, n, quota, m))
      decreases n.remaining, 1
    {
      var view := b.walls + n.extra;
      for i := 0 to |MOVES|
        invariant MemoExact(b, root) && KeepsBudget(true)
        invariant forall j :: 0 <= j < i ==> OutlastsWall(b, n, quota, m, MOVES[j])
      {
        var wall := Applied(MOVES[i], n.cop);
        if !Passable(b.grid, view, wall) {
          continue;
        }
        if wall == Applied(m, n.thief) || Surrounded(b.grid, view + {wall}, Applied(m, n.thief)) {
          assert !OutlastsWall(b, n, quota, m, MOVES[i]);
          return Ok(false);
        }
        var safe :- SearchNode(b, AfterCopWall(n, m, MOVES[i]), quota - 1, root);
        if !safe {
          assert !OutlastsWall(b, n, quota, m, MOVES[i]);
          return Ok(false);
        }
      }
      forall wm: Move ensures OutlastsWall(b, n, quota, m, wm) {
        var j := Index(wm);
      }
      return Ok(true);
    }

    /** _survives: any thief move will do; the answer is cached. */
    method SearchNode(b: Arena, n: Node, quota: int, ghost root: int) returns (r: Result<bool>)
      requires MemoExact(b, root) && quota == root - |n.extra|
      modifies this`nodes, this`memo, this`expirySeen
      ensures MemoExact(b, root) && KeepsBudget(r.Ok?)
      ensures r.Ok? ==> (r.value <==> Survives(b, n, quota))
      decreases n.remaining, 3
    {
      if n in memo {
        return Ok(memo[n]);
      }
      var found := false;
      for i := 0 to |MOVES|
        invariant MemoExact(b, root) && KeepsBudget(true)
        invariant !found && forall j :: 0 <= j < i ==> !MoveSurvives(b, n, quota, MOVES[j])
      {
        var safe :- SearchMove(b, n, quota, MOVES[i], root);
        if safe {
          found := true;
          break;
        }
      }
      if !found {
        forall m: Move ensures !MoveSurvives(b, n, quota, m) {
          var j := Index(m);
        }
      }
      memo := memo[n := found];
      return Ok(found);
    }

    /** The moves that survive from one support cell. */
    method SafeMoves(b: Arena, n: Node, quota: int, ghost root: int) returns (r: Result<set<Move>>)
      requires MemoExact(b, root) && quota == root - |n.extra|
      modifies this`nodes, this`memo, this`expirySeen
      ensures MemoExact(b, root) && KeepsBudget(r.Ok?)
      ensures r.Ok? ==> forall m: Move :: m in r.value <==> MoveSurvives(b, n, quota, m)
    {
      var good: set<Move> := {};
      for i := 0 to |MOVES|
        invariant MemoExact(b, root) && KeepsBudget(true)
        invariant forall m: Move :: m in good <==> Index(m) < i && MoveSurvives(b, n, quota, m)
      {
        var safe :- SearchMove(b, n, quota, MOVES[i], root);
        if safe {
          good := good + {MOVES[i]};
        }
      }
      return Ok(good);
    }

    /** The intersection over the support; it may stop early when it is empty. */
    method SafeFromAll(b: Arena, rules: Rules, me: Cell, turns: nat, support: seq<Cell>) returns (r: Result<set<Move>>)
      requires turns <= rules.threshold
      modifies this`nodes, this`memo, this`expirySeen
      ensures nodes <= settings.nodeCap + 1 && (r.Ok? ==> nodes <= settings.nodeCap)
      ensures r.Err? ==> nodes > settings.nodeCap || expirySeen
      ensures r.Ok? ==> SafeOver(b, rules, me, turns, support, r.value)
    {
      var quota := rules.maxBarriers - |b.walls|;
      memo, nodes, expirySeen := map[], 0, false;
      var safe: set<Move> := {Stay, N, S, E, W};
      forall m: Move ensures m in safe { AllMoves(m); }
      for k := 0 to |support|
        invariant MemoExact(b, quota) && nodes <= settings.nodeCap
        invariant SafeOver(b, rules, me, turns, support[..k], safe)
      {
        hide SafeEverywhere, MoveSurvives, Survives;
        var good :- SafeMoves(b, Node(me, support[k], {}, rules.threshold - turns), quota, quota);
        SafeOverOneMore(b, rules, me, turns, support, k, safe, good);
        safe := safe * good;
        if safe == {} {
          NoneOnPrefix(b, rules, me, turns, support, k + 1);
          return Ok({});
        }
      }
      assert support[..|support|] == support;
      return Ok(safe);
    }

    /** lock: a move that survives from every support cell, or none. */
    method Lock(b: Arena, rules: Rules, me: Cell, turns: nat, belief: Field) returns (v: LockAnswer)
      modifies this
      ensures v.Certified? ==> Decided(settings, b, rules, me, turns, belief, Some(v.move))
      ensures v.Refused? ==> Decided(settings, b, rules, me, turns, belief, None)
      ensures v.Aborted? ==> Applies(settings, b, rules, turns, belief) && (nodes > settings.nodeCap || expirySeen)
      ensures certified == old(certified) + (if v.Certified? then 1 else 0)
    {
      if !settings.enabled {
        return Refused;
      }
      var support := Collect(MassAtLeast(belief, settings.massThreshold), b.grid);
      if !(1 <= |support| <= settings.maxSupport) {
        return Refused;
      }
      var remaining := rules.threshold - turns;
      if !(1 <= remaining <= settings.maxHorizon) {
        return Refused;
      }
      var safe := SafeFromAll(b, rules, me, turns, support);
      if safe.Err? {
        return Aborted;
      }
      if safe.value == {} {
        return Refused;
      }
      certified := certified + 1;
      var best := LowestRank(safe.value);
      return Certified(best);
    }
  }

  /** `safe` holds exactly the moves that survive from every cell of `support`. */
  ghost predicate SafeOver(b: Arena, rules: Rules, me: Cell, turns: nat, support: seq<Cell>, safe: set<Move>)
    requires turns <= rules.threshold
  {
    forall m: Move :: m in safe <==> SafeEverywhere(b, rules, me, turns, support, m)
  }

  lemma SafeOverOneMore(
    b: Arena, rules: Rules, me: Cell, turns: nat, support: seq<Cell>, k: nat, safe: set<Move>, good: set<Move>)
    requires turns <= rules.threshold && k < |support| && SafeOver(b, rules, me, turns, support[..k], safe)
    requires forall m: Move :: m in good <==>
      MoveSurvives(b, Node(me, support[k], {}, rules.threshold - turns), rules.maxBarriers - |b.walls|, m)
    ensures SafeOver(b, rules, me, turns, support[..k + 1], safe * good)
  {
    forall m: Move { SafeOneMore(b, rules, me, turns, support, k, m); }
  }

  lemma SafeOneMore(b: Arena, rules: Rules, me: Cell, turns: nat, support: seq<Cell>, k: nat, m: Move)
    requires turns <= rules.threshold && k < |support|
    ensures SafeEverywhere(b, rules, me, turns, support[..k + 1], m) <==>
      && SafeEverywhere(b, rules, me, turns, support[..k], m)
      && MoveSurvives(b, Node(me, support[k], {}, rules.threshold - turns), rules.maxBarriers - |b.walls|, m)
  {
    assert support[..k + 1] == support[..k] + [support[k]];
    if SafeEverywhere(b, rules, me, turns, support[..k + 1], m) {
      assert support[..k + 1][k] == support[k];
      forall j | 0 <= j < k ensures support[..k][j] == support[..k + 1][j] {}
    }
  }

  /** Where nothing is safe from some support cells, nothing is safe from all of them. */
  lemma NoneOnPrefix(b: Arena, rules: Rules, me: Cell, turns: nat, support: seq<Cell>, k: nat)
    requires turns <= rules.threshold && k <= |support| && SafeOver(b, rules, me, turns, support[..k], {})
    ensures SafeOver(b, rules, me, turns, support, {})
  {
    forall m: Move ensures !SafeEverywhere(b, rules, me, turns, support, m) {
      assert m !in {} ==> !SafeEverywhere(b, rules, me, turns, support[..k], m);
    }
  }

  method LowestRank(safe: set<Move>) returns (best: Move)
    requires safe != {}
    ensures best in safe && forall m :: m in safe ==> Rank(best) <= Rank(m)
  {
    best := if N in safe then N else if S in safe then S else if E in safe then E else if W in safe then W else Stay;
    var m :| m in safe;
    AllMoves(m);
  }

  /** The move survives from every support cell. */
  ghost predicate SafeEverywhere(b: Arena, rules: Rules, me: Cell, turns: nat, support: seq<Cell>, m: Move)
    requires turns <= rules.threshold
  {
    forall k :: 0 <= k < |support| ==>
      MoveSurvives(b, Node(me, support[k], {}, rules.threshold - turns), rules.maxBarriers - |b.walls|, m)
  }

  ghost predicate Applies(s: Settings, b: Arena, rules: Rules, turns: nat, belief: Field) {
    && s.enabled && 1 <= |SupportCells(b.grid, belief, s.massThreshold)| <= s.maxSupport
    && 1 <= rules.threshold - turns <= s.maxHorizon
  }

  /** The full meaning of an unaborted answer: the lowest-ranked safe move, or
      none because the certificate does not apply or no move is safe. */
  ghost predicate Decided(s: Settings, b: Arena, rules: Rules, me: Cell, turns: nat, belief: Field,
      answer: Option<Move>) {
    if !Applies(s, b, rules, turns, belief) then answer == None
    else
      var support := SupportCells(b.grid, belief, s.massThreshold);
      match answer
      case None => forall m: Move :: !SafeEverywhere(b, rules, me, turns, support, m)
      case Some(best) =>
        && SafeEverywhere(b, rules, me, turns, support, best)
        && forall m: Move :: SafeEverywhere(b, rules, me, turns, support, m) ==> Rank(best) <= Rank(m)
  }
}
