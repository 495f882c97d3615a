/** Frames of a sender that zeroes small residues: what the tolerance forgives, and what
    it does not. */
module Flooring {
  import opened Primitives
  import opened Boards
  import opened Scent
  import opened Forensics
  import opened Perception

  /** `cur` is the honest update of `prev` from `e`, with the residues in `cut` zeroed:
      faded cells that `e` does not reach and whose lawful value is at most `eps`. */
  ghost predicate ZeroedUpdate(g: nat, prev: Field, cur: Field, e: Cell, cut: set<Cell>, eps: real) {
    && Square(g, prev) && Square(g, cur) && InBounds(g, e)
    && (forall c :: c in cut ==>
          InBounds(g, c) && 0.0 < prev[c.row][c.col] <= 1.0 && 0.9 * prev[c.row][c.col] <= eps && !Near(c, e))
    && forall r, c :: 0 <= r < g && 0 <= c < g ==>
         cur[r][c] == if Cell(r, c) in cut then 0.0 else Lawful(prev[r][c], Cell(r, c), e)
  }

  /** The transition zeroed a residue that the tolerance may restore. */
  predicate IsResidue(g: nat, prev: Field, cur: Field, eps: real, c: Cell)
    requires Square(g, prev) && Square(g, cur)
  {
    InBounds(g, c) && prev[c.row][c.col] > 0.0 && cur[c.row][c.col] == 0.0 && 0.9 * prev[c.row][c.col] <= eps
  }

  lemma LawfulAtLeast(v: real, c: Cell, e: Cell)
    ensures v > 0.0 ==> Lawful(v, c, e) >= (if 0.9 * v <= 0.9 then 0.9 * v else 0.9) > 0.0
    ensures v > 0.0 && 0.9 * v <= 0.9 && !Near(c, e) ==> Lawful(v, c, e) == 0.9 * v
  {
  }

  /** A cell that was zeroed from above the tolerance has no explanation. */
  lemma ZeroedIsUnexplained(g: nat, prev: Field, cur: Field, c: Cell)
    requires Square(g, prev) && Square(g, cur) && InBounds(g, c)
    requires cur[c.row][c.col] == 0.0 && 0.9 * prev[c.row][c.col] > TOLERANCE
    ensures Emitters(g, prev, cur) == []
  {
    forall e ensures !Explains(g, prev, cur, e) {
      LawfulAtLeast(prev[c.row][c.col], Cell(c.row, c.col), e);
      assert Gap(Lawful(prev[c.row][c.col], Cell(c.row, c.col), e), cur[c.row][c.col]) > TOLERANCE;
    }
    NoMembers(Emitters(g, prev, cur));
  }

  /** Residues within the tolerance need no restoring. */
  lemma SmallResiduesExplained(g: nat, prev: Field, cur: Field, e: Cell, cut: set<Cell>, eps: real)
    requires ZeroedUpdate(g, prev, cur, e, cut, eps)
    requires forall c :: c in cut ==> 0.9 * prev[c.row][c.col] <= TOLERANCE
    ensures e in Emitters(g, prev, cur)
  {
    forall r, c | 0 <= r < g && 0 <= c < g
      ensures Gap(Lawful(prev[r][c], Cell(r, c), e), cur[r][c]) <= TOLERANCE
    {
      if Cell(r, c) in cut {
        LawfulAtLeast(prev[r][c], Cell(r, c), e);
      }
    }
    assert Explains(g, prev, cur, e);
  }

  /** Restoring the residues gives back the honest update. */
  lemma RestoredIsUpdate(g: nat, prev: Field, cur: Field, e: Cell, cut: set<Cell>, eps: real)
    requires ZeroedUpdate(g, prev, cur, e, cut, eps)
    ensures Restored(g, prev, cur, eps) == Updated(g, prev, e)
  {
    var restored, lawful := Restored(g, prev, cur, eps), Updated(g, prev, e);
    forall r, c | 0 <= r < g && 0 <= c < g ensures restored[r][c] == lawful[r][c] {
      LawfulAtLeast(prev[r][c], Cell(r, c), e);
      assert Floored(g, prev, cur, eps, Cell(r, c)) <==> Cell(r, c) in cut;
    }
    FieldsEqual(g, restored, lawful);
  }

  /** What the transition recorded as floored: nothing when it is explained as it
      stands, and otherwise exactly the residues that had to be restored. */
  lemma FlooredExactly(g: nat, prev: Field, cur: Field, eps: real, c: Cell)
    requires Square(g, prev) && Square(g, cur) && Solve(g, prev, cur, eps).0 != []
    ensures c in Solve(g, prev, cur, eps).1 <==> Emitters(g, prev, cur) == [] && IsResidue(g, prev, cur, eps, c)
  {
    ScanMembers(FlooredAt(g, prev, cur, eps), g, g, c);
  }

  /** A frame zeroed below `eps` keeps its emitter among the candidates; and if the raw
      frame has no explanation, exactly its residues are recorded. */
  lemma ZeroedFrameSolved(g: nat, prev: Field, cur: Field, e: Cell, cut: set<Cell>, eps: real)
    requires ZeroedUpdate(g, prev, cur, e, cut, eps)
    ensures e in Solve(g, prev, cur, eps).0
    ensures Emitters(g, prev, cur) == [] ==> forall c :: c in Solve(g, prev, cur, eps).1 <==> c in cut
  {
    hide Restored, Emitters, IsResidue, Solve, Lawful;
    if forall c :: c in cut ==> 0.9 * prev[c.row][c.col] <= TOLERANCE {
      SmallResiduesExplained(g, prev, cur, e, cut, eps);
      SolvedDirectly(g, prev, cur, eps, e);
    } else {
      var d :| d in cut && 0.9 * prev[d.row][d.col] > TOLERANCE;
      LargeResidueRestored(g, prev, cur, e, cut, eps, d);
    }
    forall c | Emitters(g, prev, cur) == [] ensures c in Solve(g, prev, cur, eps).1 <==> c in cut {
      FlooredExactly(g, prev, cur, eps, c);
      CutIsResidue(g, prev, cur, e, cut, eps, c);
    }
  }

  lemma LargeResidueRestored(g: nat, prev: Field, cur: Field, e: Cell, cut: set<Cell>, eps: real, d: Cell)
    requires ZeroedUpdate(g, prev, cur, e, cut, eps) && d in cut && 0.9 * prev[d.row][d.col] > TOLERANCE
    ensures e in Solve(g, prev, cur, eps).0
  {
    hide Restored, Emitters, Explains, Floored, Scan, Lawful;
    CutIsResidue(g, prev, cur, e, cut, eps, d);
    ZeroedIsUnexplained(g, prev, cur, d);
    RestoredIsUpdate(g, prev, cur, e, cut, eps);
    HonestUpdateExplained(g, prev, e);
    ResidueScanned(g, prev, cur, eps, d);
  }

  lemma ResidueScanned(g: nat, prev: Field, cur: Field, eps: real, c: Cell)
    requires Square(g, prev) && Square(g, cur) && IsResidue(g, prev, cur, eps, c)
    ensures c in Scan(FlooredAt(g, prev, cur, eps), g, g)
  {
    ScanMembers(FlooredAt(g, prev, cur, eps), g, g, c);
  }

  lemma CutIsResidue(g: nat, prev: Field, cur: Field, e: Cell, cut: set<Cell>, eps: real, c: Cell)
    requires ZeroedUpdate(g, prev, cur, e, cut, eps)
    ensures IsResidue(g, prev, cur, eps, c) <==> c in cut
  {
    if InBounds(g, c) {
      LawfulAtLeast(prev[c.row][c.col], Cell(c.row, c.col), e);
      assert c == Cell(c.row, c.col);
    }
  }

  /** The tolerance works: such a frame, inside the envelope, is accepted with the streak
      at zero, a head it pins is the true emitter, and the turn is recorded exactly when
      residues had to be restored. */
  lemma ZeroedFrameAccepted(t: Trust, prev: Field, cur: Field, walls: set<Cell>, e: Cell, cut: set<Cell>)
    requires t.Valid() && t.book && t.trusted && t.prev == Some(prev)
    requires ZeroedUpdate(t.grid, prev, cur, e, cut, t.eps)
    requires !Silent(t.grid, cur) && !Envelope(t.(age := t.age + 1), cur, walls)
    ensures var t' := Observed(t, cur, walls);
      && Accepted(t, cur, walls) && t'.trusted && t'.breaks == 0 && t'.refused == t.refused
      && HeadOf(t, cur) in {None, Some(e)} && t'.track == t.track + [HeadOf(t, cur)]
      && t'.flooredSteps ==
           if Emitters(t.grid, prev, cur) == [] then t.flooredSteps + [t.age + 1] else t.flooredSteps
  {
    hide Emitters, Solve, Envelope, LawVerdict, ZeroedUpdate;
    ZeroedFrameSolved(t.grid, prev, cur, e, cut, t.eps);
    ZeroedIsSquare(t.grid, prev, cur, e, cut, t.eps);
    SolvedVerdict(t.(age := t.age + 1), cur, e);
    SameEnvelope(t.(age := t.age + 1), LawVerdict(t.(age := t.age + 1), cur).0, cur, walls);
    FlooredSome(t.grid, prev, cur, t.eps);
  }

  lemma ZeroedIsSquare(g: nat, prev: Field, cur: Field, e: Cell, cut: set<Cell>, eps: real)
    requires ZeroedUpdate(g, prev, cur, e, cut, eps)
    ensures Square(g, prev) && Square(g, cur)
  {
  }

  lemma SameEnvelope(t: Trust, t1: Trust, f: Field, walls: set<Cell>)
    requires Square(t.grid, f) && t1.grid == t.grid && t1.anchor == t.anchor && t1.age == t.age
    ensures Envelope(t1, f, walls) == Envelope(t, f, walls)
  {
  }

  lemma SolvedVerdict(t: Trust, f: Field, e: Cell)
    requires t.Valid() && Square(t.grid, f) && !Silent(t.grid, f) && t.book && t.prev.Some?
    requires e in Solve(t.grid, t.prev.value, f, t.eps).0
    ensures var (t1, broken) := LawVerdict(t, f);
      && !broken && t1.last in {None, Some(e)}
      && t1 == t.(seen := t.seen + 1, breaks := 0, last := t1.last, flooredSteps :=
                  if Solve(t.grid, t.prev.value, f, t.eps).1 == [] then t.flooredSteps else t.flooredSteps + [t.age])
  {
    hide Solve;
    var emitters := Solve(t.grid, t.prev.value, f, t.eps).0;
    if |emitters| == 1 {
      SingledOut(emitters, e);
    }
  }

  lemma FlooredSome(g: nat, prev: Field, cur: Field, eps: real)
    requires Square(g, prev) && Square(g, cur) && Solve(g, prev, cur, eps).0 != []
    ensures Solve(g, prev, cur, eps).1 != [] <==> Emitters(g, prev, cur) == []
  {
  }

  /** ... and forgives no more: a cell zeroed from above both the threshold and the
      tolerance leaves the frame refused as a break of the law. */
  lemma LargeResidueRefused(t: Trust, prev: Field, cur: Field, walls: set<Cell>, c: Cell)
    requires t.Valid() && t.book && t.prev == Some(prev) && Square(t.grid, cur) && !Silent(t.grid, cur)
    requires InBounds(t.grid, c) && cur[c.row][c.col] == 0.0
    requires 0.9 * prev[c.row][c.col] > t.eps && 0.9 * prev[c.row][c.col] > TOLERANCE
    ensures Solve(t.grid, prev, cur, t.eps) == ([], [])
    ensures var t' := Observed(t, cur, walls);
      && !Accepted(t, cur, walls) && t'.breaks == t.breaks + 1 && t'.refused == t.refused + 1
      && t'.flooredSteps == t.flooredSteps && (t.breaks >= 2 ==> !t'.trusted)
  {
    hide Emitters, Restored, IncredibleSaturation, CredibleCells;
    ZeroedIsUnexplained(t.grid, prev, cur, c);
    StaysZeroed(t.grid, prev, cur, t.eps, c);
    ZeroedIsUnexplained(t.grid, prev, Restored(t.grid, prev, cur, t.eps), c);
  }

  lemma StaysZeroed(g: nat, prev: Field, cur: Field, eps: real, c: Cell)
    requires Square(g, prev) && Square(g, cur) && InBounds(g, c) && cur[c.row][c.col] == 0.0
    requires 0.9 * prev[c.row][c.col] > eps
    ensures Restored(g, prev, cur, eps)[c.row][c.col] == 0.0
  {
    assert c == Cell(c.row, c.col);
  }

  // --- what is accepted, from the frames alone ------------------------------------------

  /** One deposit at `e` on the decayed frame before reads what arrived, up to a
      thousandth; with `mend`, faded residues that arrived as zero are put back first. */
  predicate OneDeposit(g: nat, prev: Field, f: Field, eps: real, mend: bool, e: Cell)
    requires Square(g, prev) && Square(g, f)
  {
    && 0 <= e.row < g && 0 <= e.col < g
    && forall r, c :: 0 <= r < g && 0 <= c < g ==>
         var left := 0.9 * prev[r][c];
         var read := if mend && prev[r][c] > 0.0 && f[r][c] == 0.0 && left <= eps then left else f[r][c];
         var sum := left + Delta(Cell(r, c), e);
         var law := if sum >= 0.9 then 0.9 else if sum <= 0.0 then 0.0 else sum;
         law - 0.001 <= read <= law + 0.001
  }

  /** Fresh, or faded by no more than half a turn. */
  predicate AtClamp(v: real) { v > 0.0 && (v >= 0.9 || v * v >= 0.9 * 0.9 * 0.9) }

  /** No open cell reads at the clamp where an emitter that walked one step a turn from
      `start` cannot have laid it. */
  ghost predicate WithinReach(g: nat, f: Field, walls: set<Cell>, start: Cell, turns: nat)
    requires Square(g, f)
  {
    forall c :: InBounds(g, c) && c !in walls && AtClamp(f[c.row][c.col]) ==>
      exists e :: InBounds(g, e) && Abs(e.row - start.row) + Abs(e.col - start.col) <= turns
                  && Abs(c.row - e.row) <= 2 && Abs(c.col - e.col) <= 2
  }

  lemma ExplainsIsOneDeposit(g: nat, prev: Field, f: Field, eps: real, e: Cell)
    requires Square(g, prev) && Square(g, f) && InBounds(g, e)
    ensures Explains(g, prev, f, e) <==> OneDeposit(g, prev, f, eps, false, e)
    ensures Explains(g, prev, Restored(g, prev, f, eps), e) <==> OneDeposit(g, prev, f, eps, true, e)
  {
    hide Delta;
    var mended := Restored(g, prev, f, eps);
    forall r, c | 0 <= r < g && 0 <= c < g
      ensures mended[r][c] ==
        if prev[r][c] > 0.0 && f[r][c] == 0.0 && 0.9 * prev[r][c] <= eps then 0.9 * prev[r][c] else f[r][c]
    {
    }
  }

  lemma SolvedExactly(g: nat, prev: Field, f: Field, eps: real)
    requires Square(g, prev) && Square(g, f)
    ensures Solve(g, prev, f, eps).0 != [] <==> exists mend, e :: OneDeposit(g, prev, f, eps, mend, e)
  {
    hide OneDeposit, Explains, Restored, Scan;
    forall e | InBounds(g, e) { ExplainsIsOneDeposit(g, prev, f, eps, e); }
    if Solve(g, prev, f, eps).0 != [] {
      var e := Solve(g, prev, f, eps).0[0];
      assert e in Solve(g, prev, f, eps).0;
      assert OneDeposit(g, prev, f, eps, false, e) || OneDeposit(g, prev, f, eps, true, e);
    }
    if mend, e :| OneDeposit(g, prev, f, eps, mend, e) {
      DepositInBounds(g, prev, f, eps, mend, e);
      DepositSolves(g, prev, f, eps, mend, e);
    }
  }

  lemma DepositSolves(g: nat, prev: Field, f: Field, eps: real, mend: bool, e: Cell)
    requires Square(g, prev) && Square(g, f) && InBounds(g, e)
    requires Explains(g, prev, if mend then Restored(g, prev, f, eps) else f, e)
    ensures Solve(g, prev, f, eps).0 != []
  {
    hide Explains, Restored, Scan;
    if mend && Scan(FlooredAt(g, prev, f, eps), g, g) == [] {
      NothingToMend(g, prev, f, eps);
    }
    assert e in Emitters(g, prev, f) || e in Emitters(g, prev, Restored(g, prev, f, eps));
  }

  lemma DepositInBounds(g: nat, prev: Field, f: Field, eps: real, mend: bool, e: Cell)
    requires Square(g, prev) && Square(g, f) && OneDeposit(g, prev, f, eps, mend, e)
    ensures InBounds(g, e)
  {
  }

  lemma NothingToMend(g: nat, prev: Field, f: Field, eps: real)
    requires Square(g, prev) && Square(g, f) && Scan(FlooredAt(g, prev, f, eps), g, g) == []
    ensures Restored(g, prev, f, eps) == f
  {
    forall r, c | 0 <= r < g && 0 <= c < g ensures !Floored(g, prev, f, eps, Cell(r, c)) {
      ScanMembers(FlooredAt(g, prev, f, eps), g, g, Cell(r, c));
    }
    FieldsEqual(g, Restored(g, prev, f, eps), f);
  }

  lemma EnvelopeExactly(t: Trust, f: Field, walls: set<Cell>, start: Cell)
    requires Square(t.grid, f) && t.anchor == Some(start)
    ensures Envelope(t, f, walls) <==> !WithinReach(t.grid, f, walls, start, t.age)
  {
    var allowed, saturated := CredibleCells(t.grid, t.anchor, t.age), SaturatedCells(t.grid, f, walls);
    assert saturated - allowed != {} <==> exists c :: c in saturated && c !in allowed by {
      if c :| c in saturated && c !in allowed {
        assert c in saturated - allowed;
      }
      if saturated - allowed != {} {
        var c :| c in saturated - allowed;
      }
    }
  }

  /** Under the book law a frame that has one before it is accepted if and only if the
      rival is still trusted, the frame is silent or one deposit explains it, and nothing
      in it lies out of the rival's reach. */
  lemma AcceptedExactly(t: Trust, prev: Field, f: Field, walls: set<Cell>, start: Cell)
    requires t.Valid() && Square(t.grid, f) && t.book && t.prev == Some(prev) && t.anchor == Some(start)
    ensures Accepted(t, f, walls) <==>
      && t.trusted
      && ((forall r, c :: 0 <= r < t.grid && 0 <= c < t.grid ==> f[r][c] == 0.0)
          || exists mend, e :: OneDeposit(t.grid, prev, f, t.eps, mend, e))
      && WithinReach(t.grid, f, walls, start, t.age + 1)
  {
    hide Solve, OneDeposit, WithinReach, Envelope;
    SolvedExactly(t.grid, prev, f, t.eps);
    var t1 := LawVerdict(t.(age := t.age + 1), f).0;
    EnvelopeExactly(t1, f, walls, start);
  }
}
