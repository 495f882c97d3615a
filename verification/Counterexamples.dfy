/** Concrete inputs showing that the conditions of the main results are needed. */
module Counterexamples {
  import opened Primitives
  import opened Boards
  import opened Scent
  import opened Forensics
  import opened Perception
  import opened Audit
  import opened Protocol
  import opened Agreement
  import opened ScriptedRuns
  import opened Completeness

  // --- the run the audit misreads ---------------------------------------------

  /** A 2x2 board, the cop beside the thief, two rounds to survive. */
  function TwoByTwo(): Setup {
    Setup(Terms(2, Cell(0, 0), Cell(0, 1), Rules(1, 2, 2)), 1, 0.006, 0.006, 0, 0)
  }

  /** The thief stays, the cop walks onto it and does not claim it, the thief stays. */
  function MisreadRun(): seq<Label> { FirstHalf(Stay) + SecondHalf(E) + FirstHalf(Stay) }

  lemma MisreadRunHappens() returns (s: Sys)
    ensures TwoByTwo().Valid() && Run(Start(TwoByTwo()), MisreadRun()) == Some(s)
    ensures StayedUnasked(Start(TwoByTwo()), MisreadRun()) && EndedBySurvival(TwoByTwo(), s)
  {
    var u, thief := TwoByTwo(), Cell(0, 1);
    StartInv(u);
    var s0 := Start(u);
    var s1 := PlayRound(u, s0, Cell(0, 0), thief, [], Stay, E);
    s := PlayFirstHalf(u, s1, thief, thief, [thief], Stay);
    RunConcat(s0, FirstHalf(Stay) + SecondHalf(E), FirstHalf(Stay));
  }

  /** The excluded run: a landing nobody claims, then a thief that stays put.  Both
      peers lived a survival; neither audit agrees with it. */
  lemma SurvivalReadAsCapture()
    ensures TwoByTwo().Valid() && Run(Start(TwoByTwo()), MisreadRun()).Some?
    ensures var s := Run(Start(TwoByTwo()), MisreadRun()).value;
      && s.Finished() && s.police.own.outcome == Survival && s.thief.own.outcome == Survival
      && !(var r := AuditBy(TwoByTwo(), s.police, s.thief.ownRecords);
           r.Ok? && r.value.outcome == Survival && r.value.turns == 2)
      && !(var r := AuditBy(TwoByTwo(), s.thief, s.police.ownRecords);
           r.Ok? && r.value.outcome == Survival && r.value.turns == 2)
  {
    var s := MisreadRunHappens();
    AuditCompleteness(TwoByTwo(), MisreadRun());
  }

  // --- corrupt frames too close together ----------------------------------------

  function Camping(n: nat): (cells: seq<Cell>)
    ensures |cells| == n && forall k :: 0 <= k < n ==> cells[k] == Cell(0, 0)
  {
    seq(n, _ => Cell(0, 0))
  }

  /** A field reading 2.0 everywhere: no deposit explains it. */
  function Glitch(): (f: Field)
    ensures Square(3, f) && forall r, c :: 0 <= r < 3 && 0 <= c < 3 ==> f[r][c] == 2.0
  {
    seq(3, r => seq(3, c => 2.0))
  }

  /** The far corner of a 3x3 board, seen by a rival camping at the origin, stays low. */
  lemma {:induction false} FarCornerLow(n: nat)
    ensures Trail(3, Camping(n))[2][2] <= 0.4
  {
    if n > 0 {
      FarCornerLow(n - 1);
      assert Camping(n) == Camping(n - 1) + [Cell(0, 0)];
      TrailSnoc(3, Camping(n - 1), Cell(0, 0));
      assert Delta(Cell(2, 2), Cell(0, 0)) == 0.04;
    }
  }

  /** No deposit explains `f` after `prev`, and nothing in it was floored to zero. */
  ghost predicate Unexplained(prev: Field, f: Field) {
    && Square(3, prev) && Square(3, f)
    && (forall r, c :: 0 <= r < 3 && 0 <= c < 3 ==> f[r][c] > 0.0)
    && forall e :: Gap(Lawful(prev[2][2], Cell(2, 2), e), f[2][2]) > TOLERANCE
  }

  lemma NothingSolves(prev: Field, f: Field, eps: real)
    requires Unexplained(prev, f)
    ensures Solve(3, prev, f, eps) == ([], [])
  {
    var floored := Scan(FlooredAt(3, prev, f, eps), 3, 3);
    forall c ensures c !in floored { ScanMembers(FlooredAt(3, prev, f, eps), 3, 3, c); }
    NoMembers(floored);
    NoMembers(Emitters(3, prev, f));
  }

  lemma UnsolvedBreaks(t: Trust, f: Field)
    requires t.Valid() && t.book && Square(t.grid, f) && !Silent(t.grid, f)
    requires t.prev.Some? && Solve(t.grid, t.prev.value, f, t.eps) == ([], [])
    ensures Observed(t, f, {}).breaks == t.breaks + 1
    ensures t.breaks >= 2 ==> !Observed(t, f, {}).trusted
  {
  }

  lemma BreaksLaw(t: Trust, f: Field)
    requires t.Valid() && t.book && t.grid == 3 && t.prev.Some? && Unexplained(t.prev.value, f)
    ensures Observed(t, f, {}).breaks == t.breaks + 1
    ensures t.breaks >= 2 ==> !Observed(t, f, {}).trusted
  {
    NothingSolves(t.prev.value, f, t.eps);
    assert f[0][0] > 0.0;
    UnsolvedBreaks(t, f);
  }

  lemma HonestAfterGlitch(n: nat)
    requires n > 0
    ensures Unexplained(Glitch(), Trail(3, Camping(n)))
  {
    FarCornerLow(n);
    forall r, c | 0 <= r < 3 && 0 <= c < 3 ensures Trail(3, Camping(n))[r][c] > 0.0 {
      TrailSupport(3, Camping(n), r, c);
      assert Near(Cell(r, c), Camping(n)[0]);
    }
  }

  lemma GlitchAfterAnything(prev: Field)
    requires Square(3, prev)
    ensures Unexplained(prev, Glitch())
  {
  }

  lemma EverythingCredible(f: Field, age: nat)
    requires Square(3, f)
    ensures !IncredibleSaturation(3, f, {}, CredibleCells(3, Some(Cell(0, 0)), age))
  {
    forall c | InBounds(3, c) ensures c in CredibleCells(3, Some(Cell(0, 0)), age) {
      assert InBounds(3, Cell(0, 0)) && Distance(Cell(0, 0), Cell(0, 0)) <= age && Near(c, Cell(0, 0));
    }
  }

  function Bare(n: nat): (walls: seq<set<Cell>>)
    ensures |walls| == n && forall k :: 0 <= k < n ==> walls[k] == {}
  {
    seq(n, _ => {})
  }

  /** A camping stream with its frames `i` and `j` corrupted. */
  function Glitched(i: nat, j: nat): (frames: seq<Field>)
    ensures |frames| == j + 2
    ensures forall k :: 0 <= k < j + 2 ==>
      Square(3, frames[k]) && frames[k] == if k == i || k == j then Glitch() else Trail(3, Camping(k + 1))
  {
    seq(j + 2, k requires 0 <= k < j + 2 => if k == i || k == j then Glitch() else Trail(3, Camping(k + 1)))
  }

  /** What follows a corrupted frame or is one has no explanation. */
  lemma CloseUnexplained(i: nat, j: nat, k: nat)
    requires 1 <= k < j + 2 && (k == i || k == j || k - 1 == i || k - 1 == j)
    ensures Unexplained(Glitched(i, j)[k - 1], Glitched(i, j)[k])
  {
    if k == i || k == j {
      GlitchAfterAnything(Glitched(i, j)[k - 1]);
    } else {
      HonestAfterGlitch(k + 1);
    }
  }

  lemma OneMoreBreak(t: Trust, frames: seq<Field>, k: nat)
    requires t.grid == 3 && t.book && t.Valid() && 1 <= k < |frames|
    requires forall i :: 0 <= i < |frames| ==> Square(3, frames[i])
    requires Unexplained(frames[k - 1], frames[k])
    ensures var walls := Bare(|frames|);
      var was, now := Watch(t, frames[..k], walls[..k]), Watch(t, frames[..k + 1], walls[..k + 1]);
      now.breaks == was.breaks + 1 && (was.breaks >= 2 ==> !now.trusted)
  {
    hide Unexplained, Observed;
    var walls := Bare(|frames|);
    WatchSnoc(t, frames, walls, k);
    assert frames[..k][k - 1] == frames[k - 1];
    BreaksLaw(Watch(t, frames[..k], walls[..k]), frames[k]);
  }

  /** Three unexplained transitions in a row cost the trust for good. */
  lemma ThreeInARow(t: Trust, frames: seq<Field>, s: nat)
    requires t.grid == 3 && t.book && t.Valid() && 1 <= s && s + 3 <= |frames|
    requires forall k :: 0 <= k < |frames| ==> Square(3, frames[k])
    requires Unexplained(frames[s - 1], frames[s]) && Unexplained(frames[s], frames[s + 1])
    requires Unexplained(frames[s + 1], frames[s + 2])
    ensures !Watch(t, frames, Bare(|frames|)).trusted
  {
    hide *;
    OneMoreBreak(t, frames, s);
    OneMoreBreak(t, frames, s + 1);
    OneMoreBreak(t, frames, s + 2);
    LostForGood(t, frames, Bare(|frames|), s + 3);
  }

  lemma GlitchedIsHonestExcept(i: nat, j: nat)
    ensures HonestExcept(3, Camping(j + 2), Glitched(i, j), {i, j})
  {
    forall k | 0 <= k < j + 2 && k != i && k != j
      ensures Glitched(i, j)[k] == Trail(3, Camping(j + 2)[..k + 1])
    {
      assert Camping(j + 2)[..k + 1] == Camping(k + 1);
    }
  }

  lemma GlitchedIsWithinEnvelope(i: nat, j: nat)
    ensures WithinEnvelope(3, Cell(0, 0), Glitched(i, j), Bare(j + 2))
  {
    forall k | 0 <= k < j + 2
      ensures !IncredibleSaturation(3, Glitched(i, j)[k], Bare(j + 2)[k], CredibleCells(3, Some(Cell(0, 0)), k + 1))
    {
      EverythingCredible(Glitched(i, j)[k], k + 1);
    }
  }

  lemma CampingWalk(n: nat)
    ensures Walk(3, Cell(0, 0), Camping(n))
  {
  }

  /** A stream inside the envelope, honest outside `bad`, that costs the rival its trust. */
  ghost predicate Loses(
    g: nat, eps: real, start: Cell, cells: seq<Cell>, frames: seq<Field>, walls: seq<set<Cell>>, bad: set<nat>)
  {
    && Walk(g, start, cells) && HonestExcept(g, cells, frames, bad) && WithinEnvelope(g, start, frames, walls)
    && !Watch(FreshTrust(g, eps, Some(start)), frames, walls).trusted
  }

  lemma CloseCorruptionLatches(i: nat, j: nat, eps: real)
    requires i < j && !Apart(i, j)
    ensures Loses(3, eps, Cell(0, 0), Camping(j + 2), Glitched(i, j), Bare(j + 2), {i, j})
  {
    hide Unexplained, Watch, Walk, HonestExcept, WithinEnvelope;
    CampingWalk(j + 2);
    GlitchedIsHonestExcept(i, j);
    GlitchedIsWithinEnvelope(i, j);
    var s := if i == 0 then 1 else i;
    CloseUnexplained(i, j, s);
    CloseUnexplained(i, j, s + 1);
    CloseUnexplained(i, j, s + 2);
    ThreeInARow(FreshTrust(3, eps, Some(Cell(0, 0))), Glitched(i, j), s);
  }

  /** A stream that is honest outside `some` is honest outside more. */
  lemma LosesWithMore(
    g: nat, eps: real, start: Cell, cells: seq<Cell>, frames: seq<Field>, walls: seq<set<Cell>>,
    some: set<nat>, bad: set<nat>)
    requires some <= bad && Loses(g, eps, start, cells, frames, walls, some)
    ensures Loses(g, eps, start, cells, frames, walls, bad)
  {
  }

  lemma SpacedNeverLoses(
    g: nat, eps: real, start: Cell, cells: seq<Cell>, frames: seq<Field>, walls: seq<set<Cell>>, bad: set<nat>)
    requires Spaced(bad)
    ensures !Loses(g, eps, start, cells, frames, walls, bad)
  {
    hide Walk, HonestExcept, WithinEnvelope, Watch, Spaced;
    if Loses(g, eps, start, cells, frames, walls, bad) {
      CorruptFramesRecover(g, eps, start, cells, frames, walls, bad);
    }
  }

  /** Exactly which corruption can cost the trust: over the frames of `bad` some
      otherwise honest stream inside the envelope loses it if and only if two of them
      are less than three apart and are not the very first two. */
  lemma SpacingIsExact(bad: set<nat>, eps: real)
    ensures (exists g, start, cells, frames, walls :: Loses(g, eps, start, cells, frames, walls, bad)) <==> !Spaced(bad)
  {
    hide Loses, Glitched, Camping, Bare;
    if Spaced(bad) {
      forall g, start, cells, frames, walls ensures !Loses(g, eps, start, cells, frames, walls, bad) {
        SpacedNeverLoses(g, eps, start, cells, frames, walls, bad);
      }
    } else {
      var i: nat, j: nat :| i in bad && j in bad && i < j && !Apart(i, j);
      CloseCorruptionLatches(i, j, eps);
      LosesWithMore(3, eps, Cell(0, 0), Camping(j + 2), Glitched(i, j), Bare(j + 2), {i, j}, bad);
    }
  }
}
