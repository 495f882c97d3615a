/** Scent trust: one received frame at a time is held to the update law and to
    the reach envelope; three law breaks in a row, or one gross violation, latch
    the trust off.  (Class Perception; floor_tolerance.law_verdict is LawVerdict.) */
module Perception {
  import opened Primitives
  import opened Boards
  import opened Scent
  import opened Forensics
  import opened ForeignScent

  /** `book` tells that the rival follows our own law. */
  datatype Trust = Trust(
    grid: nat, eps: real, book: bool, anchor: Option<Cell>, age: nat, prev: Option<Field>,
    breaks: nat, last: Option<Cell>, trusted: bool,
    refused: nat, refusedSteps: seq<nat>, flooredSteps: seq<nat>,
    seen: nat, empty: nat, track: seq<Option<Cell>>)
  {
    predicate Valid() { prev.Some? ==> Square(grid, prev.value) }
  }

  function FreshTrust(g: nat, eps: real, anchor: Option<Cell>): Trust {
    Trust(g, eps, true, anchor, 0, None, 0, None, true, 0, [], [], 0, 0, [])
  }

  predicate Silent(g: nat, f: Field)
    requires Square(g, f)
  {
    forall r, c :: 0 <= r < g && 0 <= c < g ==> f[r][c] == 0.0
  }

  /** The break streak after a transition solved as (emitters, floored). */
  function Judged(t: Trust, emitters: seq<Cell>, floored: seq<Cell>): (Trust, bool) {
    var t1 := t.(flooredSteps := if floored == [] then t.flooredSteps else t.flooredSteps + [t.age]);
    if emitters != [] then
      (t1.(breaks := 0, last := if |emitters| == 1 then Some(emitters[0]) else None), false)
    else
      (t1.(breaks := t.breaks + 1, trusted := t.trusted && t.breaks + 1 < 3), true)
  }

  /** A rival that declared the other law: its emitter is looked for, and a frame without
      one is nothing to hold against it. */
  function ForeignlyJudged(t: Trust, f: Field): Trust
    requires t.Valid()
  {
    if t.prev.None? then t.(last := None)
    else
      var found := ForeignEmitters(t.grid, t.prev.value, f);
      t.(last := if |found| == 1 then Some(found[0]) else None)
  }

  /** (state after the law check, did the transition break the law?) */
  function LawVerdict(t: Trust, f: Field): (Trust, bool)
    requires t.Valid() && Square(t.grid, f)
  {
    if Silent(t.grid, f) then (t.(empty := t.empty + 1), false)
    else if !t.book then (ForeignlyJudged(t.(seen := t.seen + 1), f), false)
    else if t.prev.None? then (t.(seen := t.seen + 1), false)
    else
      var (emitters, floored) := Solve(t.grid, t.prev.value, f, t.eps);
      Judged(t.(seen := t.seen + 1), emitters, floored)
  }

  function Envelope(t: Trust, f: Field, walls: set<Cell>): bool
    requires Square(t.grid, f)
  {
    IncredibleSaturation(t.grid, f, walls, CredibleCells(t.grid, t.anchor, t.age))
  }

  /** The envelope latches, the baseline advances to what arrived, and the frame is
      booked as refused or accepted. */
  function Booked(t1: Trust, broken: bool, incredible: bool, f: Field): Trust {
    var t2 := t1.(trusted := t1.trusted && !incredible, prev := Some(f));
    if broken || !t2.trusted then
      t2.(refused := t2.refused + 1, refusedSteps := t2.refusedSteps + [t2.age])
    else
      t2.(last := None, track := t2.track + [t2.last])
  }

  function Observed(t: Trust, f: Field, walls: set<Cell>): (t': Trust)
    requires t.Valid() && Square(t.grid, f)
    ensures t'.Valid() && t'.grid == t.grid && t'.anchor == t.anchor && t'.age == t.age + 1
    ensures t'.prev == Some(f) && t'.book == t.book
  {
    var (t1, broken) := LawVerdict(t.(age := t.age + 1), f);
    Booked(t1, broken, Envelope(t1, f, walls), f)
  }

  /** Was the frame accepted, and the emitter that the law singled out for it. */
  function Accepted(t: Trust, f: Field, walls: set<Cell>): bool
    requires t.Valid() && Square(t.grid, f)
  {
    var (t1, broken) := LawVerdict(t.(age := t.age + 1), f);
    !broken && t1.trusted && !Envelope(t1, f, walls)
  }

  function HeadOf(t: Trust, f: Field): Option<Cell>
    requires t.Valid() && Square(t.grid, f)
  {
    LawVerdict(t.(age := t.age + 1), f).0.last
  }

  /** The frame was accepted: nothing refused, no law break pending. */
  predicate Clean(t: Trust) {
    t.book && t.trusted && t.refused == 0 && t.refusedSteps == [] && t.breaks == 0
    && t.last == None && t.flooredSteps == []
  }

  lemma SingledOut(emitters: seq<Cell>, e: Cell)
    requires e in emitters && |emitters| == 1
    ensures emitters[0] == e
  {
  }

  lemma LawfulVerdict(t: Trust, f: Field, e: Cell) returns (head: Option<Cell>)
    requires t.Valid() && Square(t.grid, f) && !Silent(t.grid, f) && t.book
    requires t.prev.Some? && e in Emitters(t.grid, t.prev.value, f)
    ensures LawVerdict(t, f) == (t.(seen := t.seen + 1, breaks := 0, last := head), false)
    ensures head.Some? ==> head.value == e
  {
    var emitters := Emitters(t.grid, t.prev.value, f);
    SolvedDirectly(t.grid, t.prev.value, f, t.eps, e);
    head := if |emitters| == 1 then Some(emitters[0]) else None;
    if |emitters| == 1 {
      SingledOut(emitters, e);
    }
  }

  /** A frame that the law explains is accepted whole. */
  lemma LawfulFrameAccepted(t: Trust, f: Field, walls: set<Cell>, e: Cell) returns (head: Option<Cell>)
    requires t.Valid() && Square(t.grid, f) && t.book && t.trusted
    requires !Silent(t.grid, f) && !Envelope(t.(age := t.age + 1), f, walls)
    requires t.prev.Some? && e in Emitters(t.grid, t.prev.value, f)
    ensures var t' := Observed(t, f, walls);
      && t'.trusted && t'.breaks == 0 && t'.refused == t.refused && t'.refusedSteps == t.refusedSteps
      && t'.flooredSteps == t.flooredSteps && t'.last == None && t'.track == t.track + [head]
    ensures head.Some? ==> head.value == e
  {
    hide Solve, Emitters, SaturatedCells, CredibleCells;
    head := LawfulVerdict(t.(age := t.age + 1), f, e);
    VerdictAccepted(t, f, walls, head);
  }

  lemma VerdictAccepted(t: Trust, f: Field, walls: set<Cell>, head: Option<Cell>)
    requires t.Valid() && Square(t.grid, f) && t.trusted && !Envelope(t.(age := t.age + 1), f, walls)
    requires var t0 := t.(age := t.age + 1);
      LawVerdict(t0, f) == (t0.(seen := t0.seen + 1, breaks := 0, last := head), false)
    ensures var t' := Observed(t, f, walls);
      && t'.trusted && t'.breaks == 0 && t'.refused == t.refused && t'.refusedSteps == t.refusedSteps
      && t'.flooredSteps == t.flooredSteps && t'.last == None && t'.track == t.track + [head]
  {
    var t1 := LawVerdict(t.(age := t.age + 1), f).0;
    BookedWhole(t1, f);
  }

  lemma BookedWhole(t1: Trust, f: Field)
    requires t1.trusted
    ensures Booked(t1, false, false, f) == t1.(prev := Some(f), last := None, track := t1.track + [t1.last])
  {
  }

  /** Under the other law no frame is refused but by the envelope, and none counts as a
      break: an error in our account of that law cannot blind us. */
  lemma ForeignNeverBreaks(t: Trust, f: Field, walls: set<Cell>)
    requires t.Valid() && Square(t.grid, f) && !t.book
    ensures var t' := Observed(t, f, walls);
      && t'.breaks == t.breaks && t'.flooredSteps == t.flooredSteps
      && (t'.trusted <==> t.trusted && !Envelope(t.(age := t.age + 1), f, walls))
      && t'.refused == t.refused + if t'.trusted then 0 else 1
  {
    hide IncredibleSaturation, CredibleCells;
  }

  /** ... and a rival that does follow that law is pinned, if at all, where it is. */
  lemma ForeignHeadIsTrue(t: Trust, prev: Field, e: Cell)
    requires t.Valid() && !t.book && t.prev == Some(prev) && InBounds(t.grid, e)
    requires !Silent(t.grid, ForeignUpdated(t.grid, prev, e))
    ensures HeadOf(t, ForeignUpdated(t.grid, prev, e)) in {None, Some(e)}
  {
    var found := ForeignEmitters(t.grid, prev, ForeignUpdated(t.grid, prev, e));
    ForeignUpdateExplained(t.grid, prev, e);
    if |found| == 1 {
      SingledOut(found, e);
    }
  }

  /** Any single frame inside the envelope costs at most one break and one refusal. */
  lemma OneFrameCostsOne(t: Trust, f: Field, walls: set<Cell>)
    requires t.Valid() && Square(t.grid, f) && t.trusted && t.breaks < 2
    requires !Envelope(t.(age := t.age + 1), f, walls)
    ensures var t' := Observed(t, f, walls);
      t'.trusted && t'.breaks <= t.breaks + 1 && t'.refused <= t.refused + 1
  {
  }

  /** A cell is pinned exactly when it alone explains the transition. */
  lemma HeadExactly(t: Trust, prev: Field, f: Field, e: Cell)
    requires t.Valid() && Square(t.grid, f) && !Silent(t.grid, f) && t.prev == Some(prev)
    requires if t.book then Emitters(t.grid, prev, f) != [] else ForeignEmitters(t.grid, prev, f) != []
    ensures HeadOf(t, f) == Some(e) <==>
      forall x :: (InBounds(t.grid, x) && (if t.book then Explains(t.grid, prev, f, x)
                                           else ForeignExplains(t.grid, prev, f, x))) <==> x == e
  {
    hide Explains, ForeignExplains, Emitters, ForeignEmitters, Solve, Silent;
    var found := if t.book then Emitters(t.grid, prev, f) else ForeignEmitters(t.grid, prev, f);
    FoundOnce(t.grid, prev, f);
    Alone(found, e);
    assert found[0] in found;
    if t.book {
      SolvedDirectly(t.grid, prev, f, t.eps, found[0]);
    }
  }

  lemma FoundOnce(g: nat, prev: Field, f: Field)
    ensures Distinct(Emitters(g, prev, f)) && Distinct(ForeignEmitters(g, prev, f))
  {
    ScanDistinct(ExplainedBy(g, prev, f), g, g);
    ScanDistinct(ForeignlyExplainedBy(g, prev, f), g, g);
  }

  lemma Alone(found: seq<Cell>, e: Cell)
    requires Distinct(found) && found != []
    ensures (|found| == 1 && found[0] == e) <==> forall x :: x in found <==> x == e
  {
    assert found[0] in found && (|found| > 1 ==> found[1] in found);
  }

  // --- the record of evidence -----------------------------------------------------

  /** Silence is no evidence of anything: a trusted rival that sends nothing stays
      trusted, its streak where it was.  The census tells silence from a reading. */
  lemma SilenceIsAccepted(t: Trust, f: Field, walls: set<Cell>)
    requires t.Valid() && Square(t.grid, f)
    ensures var silent := forall r, c :: 0 <= r < t.grid && 0 <= c < t.grid ==> f[r][c] == 0.0;
      var t' := Observed(t, f, walls);
      && (if silent then t'.empty == t.empty + 1 && t'.seen == t.seen
          else t'.empty == t.empty && t'.seen == t.seen + 1)
      && (silent ==> t'.trusted == t.trusted && t'.breaks == t.breaks)
      && (silent && t.trusted ==> t'.refused == t.refused && t'.refusedSteps == t.refusedSteps)
  {
    hide Solve, ForeignEmitters, CredibleCells;
    if Silent(t.grid, f) {
      var saturated := SaturatedCells(t.grid, f, walls);
      assert saturated == {};
    }
  }

  /** How many of the frames read nothing at all. */
  function SilentFrames(g: nat, frames: seq<Field>): nat
    requires forall i :: 0 <= i < |frames| ==> Square(g, frames[i])
  {
    if frames == [] then 0
    else
      SilentFrames(g, frames[..|frames| - 1]) + if Silent(g, frames[|frames| - 1]) then 1 else 0
  }

  /** Every frame is counted once as seen or as empty, and booked once as refused, under
      its own turn, or with what its trail said. */
  ghost predicate Booking(t: Trust, frames: seq<Field>)
    requires forall i :: 0 <= i < |frames| ==> Square(t.grid, frames[i])
  {
    && t.age == |frames| && t.empty == SilentFrames(t.grid, frames) && t.seen == |frames| - t.empty
    && |t.track| + t.refused == |frames| && |t.refusedSteps| == t.refused
    && (forall i :: 0 <= i < |t.refusedSteps| ==> 1 <= t.refusedSteps[i] <= t.age)
    && (forall i, j :: 0 <= i < j < |t.refusedSteps| ==> t.refusedSteps[i] < t.refusedSteps[j])
    && (forall i :: 0 <= i < |t.flooredSteps| ==> 1 <= t.flooredSteps[i] <= t.age)
    && (forall i, j :: 0 <= i < j < |t.flooredSteps| ==> t.flooredSteps[i] < t.flooredSteps[j])
  }

  /** What one frame adds to the record. */
  lemma OneFrameBooked(t: Trust, f: Field, walls: set<Cell>)
    requires t.Valid() && Square(t.grid, f)
    ensures var t' := Observed(t, f, walls);
      && (if Silent(t.grid, f) then t'.empty == t.empty + 1 && t'.seen == t.seen
          else t'.empty == t.empty && t'.seen == t.seen + 1)
      && (if Accepted(t, f, walls)
          then t'.refused == t.refused && t'.refusedSteps == t.refusedSteps && |t'.track| == |t.track| + 1
          else t'.refused == t.refused + 1 && t'.refusedSteps == t.refusedSteps + [t.age + 1] && t'.track == t.track)
      && t'.flooredSteps in {t.flooredSteps, t.flooredSteps + [t.age + 1]}
  {
    hide Solve, ForeignEmitters, Envelope;
  }

  lemma BookOneMore(t: Trust, frames: seq<Field>, f: Field, walls: set<Cell>)
    requires t.Valid() && Square(t.grid, f) && (forall i :: 0 <= i < |frames| ==> Square(t.grid, frames[i]))
    requires Booking(t, frames)
    ensures Booking(Observed(t, f, walls), frames + [f])
  {
    hide Observed, Accepted;
    OneFrameBooked(t, f, walls);
    assert (frames + [f])[..|frames|] == frames;
    assert (frames + [f])[|frames|] == f;
  }

  /** The evidence that goes into the summary accounts for every frame of any stream,
      honest or not. */
  lemma {:induction false} EveryFrameBooked(
    g: nat, eps: real, book: bool, anchor: Option<Cell>, frames: seq<Field>, walls: seq<set<Cell>>)
    requires |walls| == |frames| && forall i :: 0 <= i < |frames| ==> Square(g, frames[i])
    ensures Booking(Watch(FreshTrust(g, eps, anchor).(book := book), frames, walls), frames)
    decreases |frames|
  {
    hide Booking, Observed;
    var t := FreshTrust(g, eps, anchor).(book := book);
    if frames == [] {
      NothingBooked(t);
    } else {
      var n := |frames| - 1;
      EveryFrameBooked(g, eps, book, anchor, frames[..n], walls[..n]);
      assert frames[..n] + [frames[n]] == frames;
      BookOneMore(Watch(t, frames[..n], walls[..n]), frames[..n], frames[n], walls[n]);
    }
  }

  lemma NothingBooked(t: Trust)
    requires t == FreshTrust(t.grid, t.eps, t.anchor).(book := t.book)
    ensures Booking(t, [])
  {
  }

  lemma HonestFrameNotSilent(g: nat, cells: seq<Cell>)
    requires |cells| > 0 && InBounds(g, cells[|cells| - 1])
    ensures !Silent(g, Trail(g, cells))
  {
    var e := cells[|cells| - 1];
    TrailSupport(g, cells, e.row, e.col);
    assert Near(e, e);
  }

  /** One honest frame is accepted, and if the law singles out an emitter it is
      the true one. */
  lemma HonestFrameAccepted(t: Trust, start: Cell, cells: seq<Cell>, walls: set<Cell>) returns (head: Option<Cell>)
    requires Clean(t) && t.anchor == Some(start) && |cells| > 0 && t.age == |cells| - 1
    requires Walk(t.grid, start, cells)
    requires t.prev == if |cells| == 1 then None else Some(Trail(t.grid, cells[..|cells| - 1]))
    ensures t.Valid()
    ensures var t' := Observed(t, Trail(t.grid, cells), walls);
      Clean(t') && t'.track == t.track + [head]
    ensures head.Some? ==> head.value == cells[|cells| - 1]
  {
    var g, n := t.grid, |cells| - 1;
    var f := Trail(g, cells);
    HonestTrailCredible(g, start, cells, walls);
    HonestFrameNotSilent(g, cells);
    if n > 0 {
      HonestUpdateExplained(g, Trail(g, cells[..n]), cells[n]);
      head := LawfulFrameAccepted(t, f, walls, cells[n]);
    } else {
      head := None;
    }
  }

  /** `n` honest frames, from the `k`-th on. */
  function TrailFrames(g: nat, cells: seq<Cell>, k: nat, n: nat): (frames: seq<Field>)
    requires k + n <= |cells|
    ensures |frames| == n
    ensures forall j :: 0 <= j < n ==> frames[j] == Trail(g, cells[..k + j + 1])
    ensures forall j :: 0 <= j < n ==> Square(g, frames[j])
  {
    seq(n, j requires 0 <= j < n => Trail(g, cells[..k + j + 1]))
  }

  /** The state after a whole stream of frames. */
  function Watch(t: Trust, frames: seq<Field>, walls: seq<set<Cell>>): (t': Trust)
    requires t.Valid() && |walls| == |frames|
    requires forall i :: 0 <= i < |frames| ==> Square(t.grid, frames[i])
    ensures t'.Valid() && t'.grid == t.grid && t'.anchor == t.anchor && t'.age == t.age + |frames|
    ensures t'.book == t.book
    ensures frames != [] ==> t'.prev == Some(frames[|frames| - 1])
    ensures frames == [] ==> t' == t
  {
    if frames == [] then t
    else
      var n := |frames| - 1;
      Observed(Watch(t, frames[..n], walls[..n]), frames[n], walls[n])
  }

  lemma WatchSnoc(t: Trust, frames: seq<Field>, walls: seq<set<Cell>>, n: nat)
    requires t.Valid() && |walls| == |frames| && n < |frames|
    requires forall i :: 0 <= i < |frames| ==> Square(t.grid, frames[i])
    ensures Watch(t, frames[..n + 1], walls[..n + 1])
        == Observed(Watch(t, frames[..n], walls[..n]), frames[n], walls[n])
  {
    assert frames[..n + 1][..n] == frames[..n] && walls[..n + 1][..n] == walls[..n];
  }

  /** Once the trust is lost every further frame is refused. */
  lemma LostStaysLost(t: Trust, f: Field, walls: set<Cell>)
    requires t.Valid() && Square(t.grid, f) && !t.trusted
    ensures var t' := Observed(t, f, walls); !t'.trusted && t'.refused == t.refused + 1 && t'.track == t.track
  {
  }

  /** ... for good: no later stream, honest or not, is believed again. */
  lemma {:induction false} LostForGood(t: Trust, frames: seq<Field>, walls: seq<set<Cell>>, n: nat)
    requires t.Valid() && |walls| == |frames| && n <= |frames|
    requires forall i :: 0 <= i < |frames| ==> Square(t.grid, frames[i])
    requires !Watch(t, frames[..n], walls[..n]).trusted
    ensures var was, now := Watch(t, frames[..n], walls[..n]), Watch(t, frames, walls);
      !now.trusted && now.refused == was.refused + |frames| - n && now.track == was.track
    decreases |frames| - n
  {
    if n < |frames| {
      WatchSnoc(t, frames, walls, n);
      LostStaysLost(Watch(t, frames[..n], walls[..n]), frames[n], walls[n]);
      LostForGood(t, frames, walls, n + 1);
    } else {
      assert frames[..n] == frames && walls[..n] == walls;
    }
  }

  /** How many of the first `n` frames are corrupted. */
  function Corrupted(bad: set<nat>, n: nat): nat {
    if n == 0 then 0 else Corrupted(bad, n - 1) + (if n - 1 in bad then 1 else 0)
  }

  /** Three apart; only the very first two frames may both be corrupted, since nothing
      is compared before the second. */
  predicate Apart(i: nat, j: nat) { j - i >= 3 || (i == 0 && j == 1) }

  predicate Spaced(bad: set<nat>) {
    forall i, j :: i in bad && j in bad && i < j ==> Apart(i, j)
  }

  /** Frames outside `bad` are honest: frame k is the trail of `cells[..k + 1]`. */
  ghost predicate HonestExcept(g: nat, cells: seq<Cell>, frames: seq<Field>, bad: set<nat>) {
    && |frames| == |cells|
    && forall k :: 0 <= k < |frames| ==>
         Square(g, frames[k]) && (k !in bad ==> frames[k] == Trail(g, cells[..k + 1]))
  }

  ghost predicate WithinEnvelope(g: nat, start: Cell, frames: seq<Field>, walls: seq<set<Cell>>) {
    |walls| == |frames| &&
    forall k :: 0 <= k < |frames| ==>
      Square(g, frames[k]) && !IncredibleSaturation(g, frames[k], walls[k], CredibleCells(g, Some(start), k + 1))
  }

  /** The break streak after `n` frames: only the bad frame and the honest one
      compared against it can break the law. */
  function StreakBound(bad: set<nat>, n: nat): nat {
    if n >= 2 && n - 1 in bad then 1 else if n >= 2 && n - 2 in bad then 2 else 0
  }

  predicate Recovering(t: Trust, bad: set<nat>, n: nat) {
    && t.trusted && t.breaks <= StreakBound(bad, n)
    && t.refused + (if n >= 1 && n - 1 in bad then 1 else 0) <= 2 * Corrupted(bad, n)
  }

  /** An honest frame after an honest one, inside the envelope, is accepted. */
  lemma HonestAfterHonest(t: Trust, cells: seq<Cell>, walls: set<Cell>)
    requires t.Valid() && t.book && t.trusted && |cells| > 1 && InBounds(t.grid, cells[|cells| - 1])
    requires t.prev == Some(Trail(t.grid, cells[..|cells| - 1]))
    requires !Envelope(t.(age := t.age + 1), Trail(t.grid, cells), walls)
    ensures var t' := Observed(t, Trail(t.grid, cells), walls);
      t'.trusted && t'.breaks == 0 && t'.refused == t.refused
  {
    hide Solve, SaturatedCells, CredibleCells, Observed;
    var g, n := t.grid, |cells| - 1;
    HonestFrameNotSilent(g, cells);
    HonestUpdateExplained(g, Trail(g, cells[..n]), cells[n]);
    var _ := LawfulFrameAccepted(t, Trail(g, cells), walls, cells[n]);
  }

  /** With nothing to compare it to, a frame breaks no law. */
  lemma FirstFrameFree(t: Trust, f: Field, walls: set<Cell>)
    requires t.Valid() && Square(t.grid, f) && t.prev == None && t.trusted && !Envelope(t.(age := t.age + 1), f, walls)
    ensures var t' := Observed(t, f, walls); t'.trusted && t'.breaks == t.breaks && t'.refused == t.refused
  {
    hide SaturatedCells, CredibleCells;
  }

  lemma OneMoreFrame(t: Trust, cells: seq<Cell>, frames: seq<Field>, walls: set<Cell>, bad: set<nat>, n: nat)
    requires t.Valid() && t.book && HonestExcept(t.grid, cells, frames, bad) && Spaced(bad)
    requires n < |frames| && InBounds(t.grid, cells[n]) && Recovering(t, bad, n)
    requires t.prev == if n == 0 then None else Some(frames[n - 1])
    requires t.age == n && !IncredibleSaturation(t.grid, frames[n], walls, CredibleCells(t.grid, t.anchor, n + 1))
    ensures Recovering(Observed(t, frames[n], walls), bad, n + 1)
  {
    hide Trail, Solve, Emitters, SaturatedCells, CredibleCells, Observed;
    if n !in bad && n > 0 && n - 1 !in bad {
      assert cells[..n + 1][..n] == cells[..n];
      assert frames[n - 1] == Trail(t.grid, cells[..n - 1 + 1]);
      HonestAfterHonest(t, cells[..n + 1], walls);
    } else if n > 0 {
      OneFrameCostsOne(t, frames[n], walls);
    } else {
      FirstFrameFree(t, frames[n], walls);
    }
  }

  lemma FrameFacts(
    g: nat, start: Cell, cells: seq<Cell>, frames: seq<Field>, walls: seq<set<Cell>>, bad: set<nat>, k: nat)
    requires Walk(g, start, cells) && HonestExcept(g, cells, frames, bad) && WithinEnvelope(g, start, frames, walls)
    requires k < |frames|
    ensures |cells| == |walls| == |frames| && InBounds(g, cells[k])
    ensures forall i :: 0 <= i < |frames| ==> Square(g, frames[i])
    ensures !IncredibleSaturation(g, frames[k], walls[k], CredibleCells(g, Some(start), k + 1))
  {
  }

  lemma FreshRecovering(g: nat, eps: real, start: Cell, bad: set<nat>)
    ensures var t := FreshTrust(g, eps, Some(start));
      && t.Valid() && t.grid == g && t.book && t.anchor == Some(start) && t.age == 0 && t.prev == None
      && Recovering(t, bad, 0)
  {
  }

  lemma {:induction false} StreamRecovers(
    g: nat, eps: real, start: Cell, cells: seq<Cell>, frames: seq<Field>, walls: seq<set<Cell>>, bad: set<nat>, n: nat)
    requires Walk(g, start, cells) && Spaced(bad) && n <= |frames|
    requires HonestExcept(g, cells, frames, bad)
    requires WithinEnvelope(g, start, frames, walls)
    ensures Recovering(Watch(FreshTrust(g, eps, Some(start)), frames[..n], walls[..n]), bad, n)
    decreases n
  {
    hide *;
    FreshRecovering(g, eps, start, bad);
    if n > 0 {
      FrameFacts(g, start, cells, frames, walls, bad, n - 1);
      StreamRecovers(g, eps, start, cells, frames, walls, bad, n - 1);
      WatchSnoc(FreshTrust(g, eps, Some(start)), frames, walls, n - 1);
      var t := Watch(FreshTrust(g, eps, Some(start)), frames[..n - 1], walls[..n - 1]);
      OneMoreFrame(t, cells, frames, walls[n - 1], bad, n - 1);
    }
  }

  /** Spaced corrupted frames cost at most two refusals each and
      never latch: the baseline always advances to what arrived. */
  lemma CorruptFramesRecover(
    g: nat, eps: real, start: Cell, cells: seq<Cell>, frames: seq<Field>, walls: seq<set<Cell>>, bad: set<nat>)
    requires Walk(g, start, cells) && Spaced(bad)
    requires HonestExcept(g, cells, frames, bad)
    requires WithinEnvelope(g, start, frames, walls)
    ensures var t := Watch(FreshTrust(g, eps, Some(start)), frames, walls);
      t.trusted && t.refused <= 2 * Corrupted(bad, |frames|)
  {
    StreamRecovers(g, eps, start, cells, frames, walls, bad, |frames|);
    assert frames[..|frames|] == frames && walls[..|frames|] == walls;
  }

  /** The trust half of one peer's perception, frame by frame. */
  class Observer {
    const grid: nat
    const eps: real
    const book: bool
    const anchor: Option<Cell>
    var age: nat
    var prev: Option<Field>
    var breaks: nat
    var last: Option<Cell>
    var trusted: bool
    var refused: nat
    var refusedSteps: seq<nat>
    var flooredSteps: seq<nat>
    var seen: nat
    var empty: nat
    var track: seq<Option<Cell>>

    function View(): Trust
      reads this
    {
      Trust(grid, eps, book, anchor, age, prev, breaks, last, trusted, refused, refusedSteps, flooredSteps, seen, empty,
        track)
    }

    constructor (grid: nat, eps: real, book: bool, anchor: Option<Cell>)
      ensures View() == FreshTrust(grid, eps, anchor).(book := book)
    {
      this.grid, this.eps, this.book, this.anchor := grid, eps, book, anchor;
      age, prev, breaks, last, trusted := 0, None, 0, None, true;
      refused, refusedSteps, flooredSteps, seen, empty, track := 0, [], [], 0, 0, [];
    }

    /** The streak after a solved or unsolved transition. */
    method KeepStreak(emitters: seq<Cell>, floored: seq<Cell>) returns (broken: bool)
      modifies this`flooredSteps, this`breaks, this`last, this`trusted
      ensures (View(), broken) == Judged(old(View()), emitters, floored)
    {
      if floored != [] {
        flooredSteps := flooredSteps + [age];
      }
      if emitters != [] {
        breaks := 0;
        last := if |emitters| == 1 then Some(emitters[0]) else None;
        return false;
      }
      breaks := breaks + 1;
      if breaks >= 3 {
        trusted := false;
      }
      return true;
    }

    /** law_verdict: count the frame, solve the transition, keep the break streak. */
    method CheckLaw(f: Field) returns (broken: bool)
      requires View().Valid() && Square(grid, f)
      modifies this`empty, this`seen, this`flooredSteps, this`breaks, this`last, this`trusted
      ensures (View(), broken) == LawVerdict(old(View()), f)
    {
      if Silent(grid, f) {
        empty := empty + 1;
        return false;
      }
      seen := seen + 1;
      if !book {
        last := None;
        if prev.Some? {
          var found := FindForeignEmitters(grid, prev.value, f);
          if |found| == 1 {
            last := Some(found[0]);
          }
        }
        return false;
      }
      if prev.None? {
        return false;
      }
      var emitters, floored := SolveWithTolerance(grid, prev.value, f, eps);
      broken := KeepStreak(emitters, floored);
    }

    /** Latch on a gross violation, advance the baseline, book the frame. */
    method Book(broken: bool, incredible: bool, f: Field) returns (accepted: bool, head: Option<Cell>)
      modifies this
      ensures View() == Booked(old(View()), broken, incredible, f)
      ensures accepted == (!broken && old(trusted) && !incredible) && head == old(last)
    {
      if trusted && incredible {
        trusted := false;
      }
      prev := Some(f);
      head := last;
      if broken || !trusted {
        refused := refused + 1;
        refusedSteps := refusedSteps + [age];
        return false, head;
      }
      track := track + [head];
      last := None;
      return true, head;
    }

    /** The trust steps of Perception.observe, in order. */
    method Observe(f: Field, walls: set<Cell>) returns (accepted: bool, head: Option<Cell>)
      requires View().Valid() && Square(grid, f)
      modifies this
      ensures View() == Observed(old(View()), f, walls)
      ensures accepted == Accepted(old(View()), f, walls) && head == HeadOf(old(View()), f)
    {
      ghost var before := View();
      age := age + 1;
      var broken := CheckLaw(f);
      ghost var checked := View();
      var incredible := Envelope(View(), f, walls);
      accepted, head := Book(broken, incredible, f);
      ObservedInTwo(before, checked, broken, f, walls);
    }
  }

  lemma ObservedInTwo(t: Trust, t1: Trust, broken: bool, f: Field, walls: set<Cell>)
    requires t.Valid() && Square(t.grid, f) && t1.grid == t.grid
    requires (t1, broken) == LawVerdict(t.(age := t.age + 1), f)
    ensures Observed(t, f, walls) == Booked(t1, broken, Envelope(t1, f, walls), f)
  {
  }
}
