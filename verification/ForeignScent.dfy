/** The other published scent law: deposits merge by maximum, fade by subtraction, and are
    rounded and dropped when they are small. */
module ForeignScent {
  import opened Primitives
  import opened Boards
  import opened Scent
  import opened Forensics

  const FADE: real := 0.1
  const DROP: real := 0.0005

  function Chebyshev(a: Cell, b: Cell): nat {
    var (rows, cols) := (Abs(a.row - b.row), Abs(a.col - b.col));
    if rows < cols then cols else rows
  }

  function HalfWindow(g: nat): nat { if g < 5 then g / 2 else 2 }

  /** The deposit at `c` of an emission at `e`; on these windows it has at most two
      decimals, so rounding it to three changes nothing. */
  function ForeignKernel(g: nat, c: Cell, e: Cell): (d: real)
    ensures 0.0 <= d <= CENTER
    ensures d > 0.0 <==> Chebyshev(c, e) <= HalfWindow(g)
  {
    var half, away := HalfWindow(g), Chebyshev(c, e);
    if away > half then 0.0
    else
      assert half == 0 || half == 1 || half == 2;
      CENTER - (CENTER / (half + 1) as real) * away as real
  }

  /** To the nearest integer, a tie to the even one. */
  function Nearest(x: real): (n: int)
    ensures -0.5 <= x - n as real <= 0.5
    ensures x - n as real == 0.5 || x - n as real == -0.5 ==> n % 2 == 0
  {
    var n := x.Floor;
    if x - n as real < 0.5 || (x - n as real == 0.5 && n % 2 == 0) then n else n + 1
  }

  /** To four decimals. */
  function Rounded(x: real): real { Nearest(x * 10000.0) as real / 10000.0 }

  function Faded(merged: real): real {
    var faded := Rounded(if merged > FADE then merged - FADE else 0.0);
    if faded <= DROP then 0.0 else faded
  }

  function ForeignNext(g: nat, v: real, c: Cell, e: Cell): real {
    var d := ForeignKernel(g, c, e);
    Faded(if v < d then d else v)
  }

  /** One turn of a rival that follows that law. */
  function ForeignUpdated(g: nat, f: Field, e: Cell): (f': Field)
    requires Square(g, f)
    ensures Square(g, f')
    ensures forall r, c :: 0 <= r < g && 0 <= c < g ==> f'[r][c] == ForeignNext(g, f[r][c], Cell(r, c), e)
  {
    seq(g, r requires 0 <= r < g => seq(g, c requires 0 <= c < g => ForeignNext(g, f[r][c], Cell(r, c), e)))
  }

  predicate ForeignExplains(g: nat, prev: Field, cur: Field, e: Cell) {
    && Square(g, prev) && Square(g, cur)
    && forall r, c :: 0 <= r < g && 0 <= c < g ==>
         Gap(ForeignNext(g, prev[r][c], Cell(r, c), e), cur[r][c]) <= TOLERANCE
  }

  function ForeignlyExplainedBy(g: nat, prev: Field, cur: Field): Cell -> bool {
    e => ForeignExplains(g, prev, cur, e)
  }

  /** Every cell whose deposit turns `prev` into `cur` under that law, row by row. */
  function ForeignEmitters(g: nat, prev: Field, cur: Field): (s: seq<Cell>)
    ensures forall e :: e in s <==> InBounds(g, e) && ForeignExplains(g, prev, cur, e)
  {
    var p := ForeignlyExplainedBy(g, prev, cur);
    assert forall e :: e in Scan(p, g, g) <==> InBounds(g, e) && p(e) by {
      forall e ensures e in Scan(p, g, g) <==> InBounds(g, e) && p(e) { ScanMembers(p, g, g, e); }
    }
    Scan(p, g, g)
  }

  method FindForeignEmitters(g: nat, prev: Field, cur: Field) returns (candidates: seq<Cell>)
    ensures candidates == ForeignEmitters(g, prev, cur)
  {
    hide ForeignExplains;
    candidates := [];
    ghost var p := ForeignlyExplainedBy(g, prev, cur);
    for r := 0 to g
      invariant candidates == Scan(p, g, r)
    {
      for c := 0 to g
        invariant candidates == Scan(p, g, r) + ScanRow(p, r, c)
      {
        if ForeignExplains(g, prev, cur, Cell(r, c)) {
          candidates := candidates + [Cell(r, c)];
        }
      }
    }
  }

  /** The true emitter of such a rival is always among the candidates. */
  lemma ForeignUpdateExplained(g: nat, f: Field, e: Cell)
    requires Square(g, f) && InBounds(g, e)
    ensures e in ForeignEmitters(g, f, ForeignUpdated(g, f, e))
  {
    assert ForeignExplains(g, f, ForeignUpdated(g, f, e), e);
  }

  // --- what such a trail reads --------------------------------------------------

  /** The field of a rival that has emitted from `cells` under that law. */
  function ForeignTrail(g: nat, cells: seq<Cell>): (f: Field)
    ensures Square(g, f)
  {
    if cells == [] then Silence(g)
    else ForeignUpdated(g, ForeignTrail(g, cells[..|cells| - 1]), cells[|cells| - 1])
  }

  /** Nine tenths on the emitter's cell, six on the ring around it, three on the next. */
  function Tenths(c: Cell, e: Cell): int {
    if c == e then 9
    else if Abs(c.row - e.row) <= 1 && Abs(c.col - e.col) <= 1 then 6
    else if Abs(c.row - e.row) <= 2 && Abs(c.col - e.col) <= 2 then 3
    else 0
  }

  lemma WholeStaysWhole(n: int)
    ensures Nearest(n as real) == n
  {
  }

  lemma TenthsFade(k: nat)
    requires k <= 9
    ensures Faded(k as real / 10.0) == (if k == 0 then 0.0 else (k - 1) as real / 10.0)
  {
    var faded := if k == 0 then 0 else k - 1;
    assert (faded as real / 10.0) * 10000.0 == (1000 * faded) as real;
    WholeStaysWhole(1000 * faded);
  }

  lemma TenthsLaid(g: nat, c: Cell, e: Cell)
    requires g >= 5
    ensures ForeignKernel(g, c, e) == Tenths(c, e) as real / 10.0
  {
  }

  /** `k` tenths is the freshest deposit that reached `c`, one tenth down for each turn
      since, its own turn included. */
  predicate FreshestLeft(c: Cell, cells: seq<Cell>, k: int) {
    && (forall i :: 0 <= i < |cells| ==> Tenths(c, cells[i]) - (|cells| - i) <= k)
    && (k == 0 || exists i :: 0 <= i < |cells| && Tenths(c, cells[i]) - (|cells| - i) == k)
  }

  lemma FreshestOneMore(c: Cell, cells: seq<Cell>, k: nat)
    requires cells != [] && FreshestLeft(c, cells[..|cells| - 1], k)
    ensures var d := Tenths(c, cells[|cells| - 1]);
      var k' := if k < d then d else k;
      FreshestLeft(c, cells, if k' == 0 then 0 else k' - 1)
  {
    var n := |cells| - 1;
    assert forall i :: 0 <= i < n ==> cells[..n][i] == cells[i];
    if i :| 0 <= i < n && Tenths(c, cells[..n][i]) - (n - i) == k {
      assert Tenths(c, cells[i]) - (|cells| - i) == k - 1;
    }
    assert Tenths(c, cells[n]) - (|cells| - n) == Tenths(c, cells[n]) - 1;
  }

  /** On boards of side five or more such a trail reads, everywhere, whole tenths of the
      freshest deposit that is left. */
  lemma {:induction false} ForeignTrailReads(g: nat, cells: seq<Cell>, c: Cell) returns (k: nat)
    requires g >= 5 && InBounds(g, c)
    ensures k <= 8 && ForeignTrail(g, cells)[c.row][c.col] == k as real / 10.0 && FreshestLeft(c, cells, k)
    decreases |cells|
  {
    hide Faded, ForeignKernel, Tenths;
    if cells == [] {
      k := 0;
    } else {
      var n := |cells| - 1;
      var was := ForeignTrailReads(g, cells[..n], c);
      FreshestOneMore(c, cells, was);
      k := ForeignTurn(g, was, c, cells[n]);
      assert c == Cell(c.row, c.col);
    }
  }

  /** One turn: the larger of what is there and what is laid, less one tenth. */
  lemma ForeignTurn(g: nat, k: nat, c: Cell, e: Cell) returns (k': nat)
    requires g >= 5 && k <= 8
    ensures ForeignNext(g, k as real / 10.0, c, e) == k' as real / 10.0 && k' <= 8
    ensures var top := if k < Tenths(c, e) then Tenths(c, e) else k; k' == if top == 0 then 0 else top - 1
  {
    hide Faded, ForeignKernel;
    TenthsLaid(g, c, e);
    var top := if k < Tenths(c, e) then Tenths(c, e) else k;
    TenthsFade(top);
    k' := if top == 0 then 0 else top - 1;
  }
}
