/** Audit completeness: the replay of an honest game, with its own capture rules,
    agrees with the game both peers lived, exactly when the thief never stayed put
    straight after an unclaimed co-location. */
module Completeness {
  import opened Primitives
  import opened Boards
  import opened OwnState
  import opened Messages
  import opened Perception
  import opened HiddenTurns
  import opened Audit
  import opened Reveals
  import opened Sorting
  import opened Protocol
  import opened StepEffects
  import opened Agreement
  import opened History

  /** An entry as an auditor holds it: live claims are kept beside the rival's
      records only. */
  function Held(e: Entry, claims: bool): Entry { if claims then e else e.(claim := None) }

  function HeldLog(log: seq<Entry>, claims: bool): (h: seq<Entry>)
    ensures |h| == |log| && forall i :: 0 <= i < |log| ==> h[i] == Held(log[i], claims)
  {
    seq(|log|, i requires 0 <= i < |log| => Held(log[i], claims))
  }

  lemma HeldSnoc(log: seq<Entry>, e: Entry, claims: bool)
    ensures HeldLog(log + [e], claims) == HeldLog(log, claims) + [Held(e, claims)]
  {
  }

  ghost function Replayed(u: Setup, log: seq<Entry>, claims: bool): Result<Replay>
    requires AllSteps(log)
  {
    ReplayAll(u.terms, Some(u.subGame), HeldLog(log, claims))
  }

  lemma ReplayedSnoc(u: Setup, log: seq<Entry>, e: Entry, claims: bool)
    requires AllSteps(log) && e.payload.Step?
    ensures AllSteps(log + [e])
    ensures Replayed(u, log + [e], claims) ==
            Continue(u.terms, Some(u.subGame), Replayed(u, log, claims), Held(e, claims))
  {
    HeldSnoc(log, e, claims);
    ReplaySnoc(u.terms, Some(u.subGame), HeldLog(log, claims), Held(e, claims));
  }

  /** The replay verdict after the moves so far, and whether a landing is pending. */
  ghost function Expected(s: Sys): (Outcome, bool) {
    var p, t := s.police.own, s.thief.own;
    if t.outcome == Capture then (Capture, false)
    else if s.thief.myStep == s.police.myStep + 1 then (t.outcome, false)
    else if s.police.myStep == 0 then (Ongoing, false)
    else if LawCapture(p.grid, p.walls, t.cell) then (Capture, false)
    else if p.cell == t.cell then (Capture, true)
    else (Ongoing, false)
  }

  /** The replayed board is the lived board. */
  ghost predicate SameGame(s: Sys, r: Replay) {
    && r.walls == s.police.own.walls && r.cop == s.police.own.cell && r.thief == s.thief.own.cell
    && r.turns == s.thief.own.turns && (r.outcome, r.pending.Some?) == Expected(s)
  }

  /** The replay took a STAY for the concession and stopped there. */
  ghost predicate Stopped(s: Sys, r: Replay) {
    && r.outcome == Capture && r.pending == None
    && s.thief.myStep == s.police.myStep + 1 && s.thief.own.outcome != Capture
  }

  ghost predicate Coupled(u: Setup, s: Sys, claims: bool) {
    && AllSteps(s.log)
    && var r := Replayed(u, s.log, claims);
       if s.misread then r.Ok? ==> Stopped(s, r.value) else r.Ok? && SameGame(s, r.value)
  }

  lemma StartCoupled(u: Setup, claims: bool)
    requires u.Valid()
    ensures Coupled(u, Start(u), claims)
  {
  }

  // --- one step of the game is one step of the replay ---------------------------

  lemma CoupledThiefStep(u: Setup, s: Sys, s': Sys, a: Action, m: Message, claims: bool)
    requires Frame(u, s) && ThiefToMove(u, s) && Coupled(u, s, claims) && s'.Valid() && ThiefActed(s, s', a, m)
    ensures Coupled(u, s', claims)
  {
    hide Replayed, AllSteps, Serialize, Surrounded, LegalMove, ReplayStep;
    ReplayedSnoc(u, s.log, Logged(m), claims);
    if !s.misread {
      ThiefStepReplayed(u, Replayed(u, s.log, claims).value, Held(Logged(m), claims), a.move);
      assert s'.thief.own.SurvivalReached() <==> s'.thief.own.turns >= u.terms.rules.Limit();
    }
  }

  /** The replay of a thief step: a STAY on a pending landing closes the game,
      anything else plays on. */
  lemma ThiefStepReplayed(u: Setup, r: Replay, e: Entry, m: Move)
    requires e.payload.Step? && e.payload.role == Thief && e.payload.subGame == u.subGame && e.payload.action == Go(m)
    requires r.outcome == Ongoing || (r.outcome == Capture && r.pending.Some?)
    requires r.outcome == Ongoing ==> r.pending == None
    requires LegalMove(u.terms.grid, r.walls, r.thief, m)
    requires !LawCapture(u.terms.grid, r.walls, Applied(m, r.thief))
    ensures var r' := ReplayStep(u.terms, Some(u.subGame), r, e);
      && r'.Ok? && r'.value.pending == None && r'.value.walls == r.walls && r'.value.cop == r.cop
      && (if r.outcome == Capture && m == Stay
          then r'.value == r.(pending := None)
          else r'.value.thief == Applied(m, r.thief) && r'.value.turns == r.turns + 1
               && r'.value.outcome == (if r.turns + 1 >= u.terms.rules.Limit() then Survival else Ongoing))
  {
  }

  /** The replay of a police step: refused after a closed game, otherwise judged. */
  lemma PoliceStepReplayed(u: Setup, r: Replay, e: Entry, walls: set<Cell>, cop: Cell)
    requires e.payload.Step? && e.payload.role == Police && e.payload.subGame == u.subGame
    requires r.outcome == Ongoing || r.outcome == Capture
    requires match e.payload.action
      case Go(m) => LegalMove(u.terms.grid, r.walls, r.cop, m) && cop == Applied(m, r.cop) && walls == r.walls
      case Wall(c) =>
        LegalWall(u.terms.grid, r.walls, u.terms.rules, r.cop, c) && cop == r.cop && walls == r.walls + {c}
    requires e.claim.Some? ==> e.claim.value == cop
    requires r.pending == None
    ensures var r' := ReplayStep(u.terms, Some(u.subGame), r, e);
      if r.outcome == Capture then r'.Err?
      else
        && r'.Ok? && r'.value.walls == walls && r'.value.cop == cop && r'.value.thief == r.thief
        && r'.value.turns == r.turns
        && (r'.value.outcome, r'.value.pending.Some?) ==
             (if LawCapture(u.terms.grid, walls, r.thief) then (Capture, false)
              else if cop == r.thief then (Capture, true)
              else (Ongoing, false))
  {
  }

  lemma CoupledPoliceStep(u: Setup, s: Sys, s': Sys, a: Action, m: Message, claims: bool)
    requires Frame(u, s) && PoliceToMove(u, s) && Coupled(u, s, claims) && s'.Valid() && PoliceActed(s, s', a, m)
    ensures Coupled(u, s', claims)
  {
    ReplayedSnoc(u, s.log, Logged(m), claims);
    var before := Replayed(u, s.log, claims);
    if !s.misread {
      PoliceStepReplayed(u, before.value, Held(Logged(m), claims), s'.police.own.walls, s'.police.own.cell);
    }
  }

  /** Nothing that the replay or its expected verdict depends on has changed. */
  ghost predicate SameBoard(s: Sys, s': Sys) {
    var p, p', t, t' := s.police.own, s'.police.own, s.thief.own, s'.thief.own;
    && s'.log == s.log && s'.misread == s.misread
    && s'.police.myStep == s.police.myStep && s'.thief.myStep == s.thief.myStep
    && p'.cell == p.cell && p'.walls == p.walls && p'.grid == p.grid
    && t'.cell == t.cell && t'.turns == t.turns && t'.outcome == t.outcome
  }

  lemma CoupledUnchanged(u: Setup, s: Sys, s': Sys, claims: bool)
    requires Coupled(u, s, claims) && SameBoard(s, s')
    ensures Coupled(u, s', claims)
  {
    hide ReplayAll, LawCapture;
  }

  lemma PlaysOnBoard(u: Setup, s: Sys, s': Sys)
    requires Frame(u, s) && ThiefToHear(u, s) && s'.Valid() && PoliceHeard(s, s', None)
    ensures SameBoard(s, s')
  {
    hide CloseTurn, Observed, Serialize, Dense;
    assert s'.log == s.log;
  }

  /** The concession closes the replay: after a capture it is a closure. */
  lemma ClosureReplayed(u: Setup, r: Replay, e: Entry)
    requires e.payload.Step? && e.payload.role == Thief && e.payload.subGame == u.subGame
    requires e.payload.action == Go(Stay)
    requires r.outcome == Capture
    ensures ReplayStep(u.terms, Some(u.subGame), r, e) == Ok(r.(pending := None))
  {
  }

  /** The thief conceded: a real capture, one more entry, the same board. */
  ghost predicate ConcededBoard(u: Setup, s: Sys, s': Sys, e: Entry) {
    var p, t, t' := s.police.own, s.thief.own, s'.thief.own;
    && s'.police == s.police && s'.misread == s.misread && s'.log == s.log + [e]
    && e.payload.Step? && e.payload.role == Thief && e.payload.subGame == u.subGame && e.payload.action == Go(Stay)
    && s'.thief.myStep == s.thief.myStep + 1 == s.police.myStep + 1 && s.police.myStep > 0
    && t.outcome == Ongoing && t'.outcome == Capture && t'.cell == t.cell && t'.turns == t.turns
    && (LawCapture(p.grid, p.walls, t.cell) || p.cell == t.cell)
  }

  lemma ConcedesBoard(u: Setup, s: Sys, s': Sys, closing: Message)
    requires Frame(u, s) && ThiefToHear(u, s) && s'.Valid() && PoliceHeard(s, s', Some(closing))
    ensures ConcededBoard(u, s, s', Logged(closing))
  {
    hide CloseTurn, Observed, Serialize, Dense, LawCapture;
    assert AfterPolice(s.thief.own, s.toThief[0]).walls == s.police.own.walls;
  }

  lemma CoupledConcedes(u: Setup, s: Sys, s': Sys, e: Entry, claims: bool)
    requires Coupled(u, s, claims) && ConcededBoard(u, s, s', e)
    ensures Coupled(u, s', claims)
  {
    hide ReplayAll, ReplayStep, LawCapture;
    ReplayedSnoc(u, s.log, e, claims);
    var before := Replayed(u, s.log, claims);
    if before.Ok? && before.value.outcome == Capture {
      ClosureReplayed(u, before.value, Held(e, claims));
    }
  }

  lemma CoupledThiefHears(u: Setup, s: Sys, s': Sys, closing: Option<Message>, claims: bool)
    requires Frame(u, s) && ThiefToHear(u, s) && Coupled(u, s, claims) && s'.Valid() && PoliceHeard(s, s', closing)
    ensures Coupled(u, s', claims)
  {
    hide Frame, ThiefToHear, Coupled, PoliceHeard;
    if closing.Some? {
      ConcedesBoard(u, s, s', closing.value);
      CoupledConcedes(u, s, s', Logged(closing.value), claims);
    } else {
      PlaysOnBoard(u, s, s');
      CoupledUnchanged(u, s, s', claims);
    }
  }

  lemma CoupledPoliceHears(u: Setup, s: Sys, s': Sys, claims: bool)
    requires Frame(u, s) && Coupled(u, s, claims) && s'.Valid() && (StepHeard(s, s') || ConcessionHeard(s, s'))
    ensures Coupled(u, s', claims)
  {
    hide Coupled, Observed, Serialize, Dense;
    CoupledUnchanged(u, s, s', claims);
  }

  lemma NextCoupled(u: Setup, s: Sys, l: Label, claims: bool)
    requires Inv(u, s) && Coupled(u, s, claims) && Next(s, l).Some?
    ensures Coupled(u, Next(s, l).value, claims)
  {
    hide *;
    var s', m, closing := NextStepped(u, s, l);
    if ThiefToMove(u, s) {
      CoupledThiefStep(u, s, s', l.choice.action, m, claims);
    } else if PoliceToMove(u, s) {
      CoupledPoliceStep(u, s, s', l.choice.action, m, claims);
    } else if ThiefToHear(u, s) {
      CoupledThiefHears(u, s, s', closing, claims);
    } else {
      CoupledPoliceHears(u, s, s', claims);
    }
  }

  // --- whole runs -------------------------------------------------------------

  /** Some step of the run is a thief STAY straight after an unclaimed co-location. */
  predicate StayedUnasked(s: Sys, labels: seq<Label>)
    requires s.Valid()
    decreases labels
  {
    labels != [] && Next(s, labels[0]).Some? &&
    ((labels[0].Acts? && labels[0].role == Thief && StaysUnasked(s, labels[0].choice.action))
     || StayedUnasked(Next(s, labels[0]).value, labels[1..]))
  }

  ghost predicate Whole(u: Setup, s: Sys) {
    Inv(u, s) && HistoryInv(u, s) && Coupled(u, s, true) && Coupled(u, s, false)
  }

  lemma {:induction false} RunWhole(u: Setup, s: Sys, labels: seq<Label>)
    requires Whole(u, s) && Run(s, labels).Some?
    ensures Whole(u, Run(s, labels).value)
    ensures Run(s, labels).value.misread == (s.misread || StayedUnasked(s, labels))
    decreases labels
  {
    if labels != [] {
      var s' := Next(s, labels[0]).value;
      NextInv(u, s, labels[0]);
      NextHistory(u, s, labels[0]);
      NextCoupled(u, s, labels[0], true);
      NextCoupled(u, s, labels[0], false);
      MisreadStep(u, s, labels[0]);
      RunWhole(u, s', labels[1..]);
    }
  }

  lemma MisreadStep(u: Setup, s: Sys, l: Label)
    requires s.Valid() && Next(s, l).Some?
    ensures Next(s, l).value.misread ==
            (s.misread || (l.Acts? && l.role == Thief && StaysUnasked(s, l.choice.action)))
  {
  }

  // --- the auditor's list is the game -----------------------------------------

  lemma ClocksOfLog(u: Setup, s: Sys)
    requires Inv(u, s)
    ensures s.police.myStep <= s.thief.myStep <= s.police.myStep + 1
  {
  }

  /** The j-th entry of the log is the thief's (j even) or the police's (j odd). */
  lemma EntryInOrder(u: Setup, s: Sys, j: nat)
    requires HistoryInv(u, s) && s.police.myStep <= s.thief.myStep <= s.police.myStep + 1 && j < |s.log|
    ensures s.log[j].payload.Step? && Key(s.log[j]) == j + 2
  {
    var i := j / 2;
    if j % 2 == 0 {
      assert SealsAt(s.thief.ownRecords, Thief, u.subGame, s.log, 0, i);
    } else {
      assert SealsAt(s.police.ownRecords, Police, u.subGame, s.log, 1, i);
    }
  }

  lemma HeldInOrder(log: seq<Entry>, claims: bool)
    requires forall j :: 0 <= j < |log| ==> log[j].payload.Step? && Key(log[j]) == j + 2
    ensures AllSteps(log) && StrictBy(HeldLog(log, claims), Key)
  {
    var h := HeldLog(log, claims);
    assert forall j :: 0 <= j < |h| ==> h[j].payload == log[j].payload;
  }

  /** The log is in strict game order. */
  lemma LogInOrder(u: Setup, s: Sys, claims: bool)
    requires Inv(u, s) && HistoryInv(u, s)
    ensures AllSteps(s.log) && StrictBy(HeldLog(s.log, claims), Key)
  {
    ClocksOfLog(u, s);
    forall j | 0 <= j < |s.log| ensures s.log[j].payload.Step? && Key(s.log[j]) == j + 2 {
      EntryInOrder(u, s, j);
    }
    HeldInOrder(s.log, claims);
  }

  lemma {:induction false} EntriesConcat(a: seq<Record>, b: seq<Record>)
    requires Entries(a).Ok? && Entries(b).Ok?
    ensures Entries(a + b) == Ok(Entries(a).value + Entries(b).value)
  {
    if b == [] {
      assert a + b == a && Entries(a).value + [] == Entries(a).value;
    } else {
      assert (a + b)[..|a + b| - 1] == a + b[..|b| - 1];
      EntriesConcat(a, b[..|b| - 1]);
      assert (a + b)[|a + b| - 1] == b[|b| - 1];
      if Replayable(b[|b| - 1]) {
        var x := Entries(b).value[|Entries(b).value| - 1];
        assert Entries(a).value + (Entries(b[..|b| - 1]).value + [x])
          == Entries(a).value + Entries(b[..|b| - 1]).value + [x];
      }
    }
  }

  /** A record that opens to the `k`-th entry of the log. */
  predicate OpensTo(r: Record, log: seq<Entry>, k: nat, claims: bool) {
    && k < |log| && Replayable(r) && r.payload.value == log[k].payload
    && VerifyDeclared(r) == Ok(Held(log[k], claims).claim)
  }

  /** Records that open every other entry of the log. */
  predicate OpensHalf(rs: seq<Record>, log: seq<Entry>, off: nat, claims: bool) {
    forall i :: 0 <= i < |rs| ==> OpensTo(rs[i], log, 2 * i + off, claims)
  }

  lemma {:induction false} HalfEntries(rs: seq<Record>, log: seq<Entry>, off: nat, claims: bool)
    requires OpensHalf(rs, log, off, claims)
    ensures Entries(rs).Ok? && |Entries(rs).value| == |rs|
    ensures forall i :: 0 <= i < |rs| ==> 2 * i + off < |log| && Entries(rs).value[i] == Held(log[2 * i + off], claims)
  {
    if rs != [] {
      var n := |rs| - 1;
      HalfEntries(rs[..n], log, off, claims);
      assert OpensTo(rs[n], log, 2 * n + off, claims);
      assert Entries(rs).value == Entries(rs[..n]).value + [Held(log[2 * n + off], claims)];
    }
  }

  lemma OwnHalfOpens(own: seq<Record>, role: Role, sub: int, log: seq<Entry>, off: nat, n: nat, claims: bool)
    requires OwnHalf(own, role, sub, log, off, n)
    requires claims ==> Unclaimed(log, off)
    ensures OpensHalf(own[1..], log, off, claims)
    ensures Entries(own).Ok? && Entries(own[1..]).Ok? && Entries(own).value == Entries(own[1..]).value
  {
    forall i | 0 <= i < n ensures OpensTo(own[1..][i], log, 2 * i + off, claims) {
      assert SealsAt(own, role, sub, log, off, i);
    }
    HalfEntries(own[1..], log, off, claims);
    assert own == [own[0]] + own[1..];
    assert Entries([own[0]]) == Ok([]) by {
      assert [own[0]][..0] == [];
    }
    EntriesConcat([own[0]], own[1..]);
  }

  lemma HeardHalfOpens(theirs: seq<Record>, own: seq<Record>, role: Role, sub: int, log: seq<Entry>, off: nat,
      n: nat, claims: bool)
    requires OwnHalf(own, role, sub, log, off, n) && HeardHalf(theirs, own, log, off, n)
    requires !claims ==> Unclaimed(log, off)
    ensures VerifyReveals(theirs, own) == Ok(OpenedAll(theirs))
    ensures OpensHalf(OpenedAll(theirs), log, off, claims)
  {
    forall i | 0 <= i < n ensures theirs[i].commit == own[i + 1].commit && Reproven(theirs[i].commit, own) {
      assert HeardAt(theirs, own, log, off, i);
    }
    forall k | 0 <= k < |own| ensures CommitClean(own[k]) {
      if k > 0 {
        var i := k - 1;
        assert SealsAt(own, role, sub, log, off, i);
      }
    }
    forall i | 0 <= i < n ensures OpensTo(OpenedAll(theirs)[i], log, 2 * i + off, claims) {
      assert HeardAt(theirs, own, log, off, i);
      assert SealsAt(own, role, sub, log, off, i);
    }
  }

  /** Where the i-th record of two concatenated halves stands in the log, and back. */
  function Place(i: nat, na: nat, off: nat): int {
    if i < na then 2 * i + off else 2 * (i - na) + 1 - off
  }

  function Unplace(j: nat, na: nat, off: nat): nat {
    if j % 2 == off then j / 2 else na + j / 2
  }

  lemma PlacesInverse(na: nat, nb: nat, off: nat)
    requires off <= 1 && (if off == 0 then nb <= na <= nb + 1 else na <= nb <= na + 1)
    ensures forall i :: 0 <= i < na + nb ==>
      0 <= Place(i, na, off) < na + nb && Unplace(Place(i, na, off), na, off) == i
    ensures forall j :: 0 <= j < na + nb ==> Unplace(j, na, off) < na + nb && Place(Unplace(j, na, off), na, off) == j
  {
  }

  lemma Placements(na: nat, nb: nat, off: nat) returns (pos: seq<nat>, inv: seq<nat>)
    requires off <= 1 && (if off == 0 then nb <= na <= nb + 1 else na <= nb <= na + 1)
    ensures |pos| == |inv| == na + nb
    ensures forall i :: 0 <= i < na + nb ==> pos[i] == Place(i, na, off) < na + nb && inv[pos[i]] == i
    ensures forall j :: 0 <= j < na + nb ==> inv[j] < na + nb && pos[inv[j]] == j
  {
    PlacesInverse(na, nb, off);
    pos := seq(na + nb, i requires 0 <= i < na + nb => Place(i, na, off));
    inv := seq(na + nb, j requires 0 <= j < na + nb => Unplace(j, na, off));
  }

  lemma EntryAtPlace(log: seq<Entry>, claims: bool, a: seq<Entry>, b: seq<Entry>, off: nat, i: nat)
    requires AllSteps(log) && off <= 1 && i < |a| + |b|
    requires forall i :: 0 <= i < |a| ==> 2 * i + off < |log| && a[i] == Held(log[2 * i + off], claims)
    requires forall i :: 0 <= i < |b| ==> 2 * i + 1 - off < |log| && b[i] == Held(log[2 * i + 1 - off], claims)
    ensures var k := Place(i, |a|, off);
      0 <= k < |log| && (a + b)[i] == HeldLog(log, claims)[k] && (a + b)[i].payload.Step?
  {
    assert (a + b)[i] == if i < |a| then a[i] else b[i - |a|];
  }

  /** Two opened halves, concatenated either way, sort to the held log. */
  lemma HalvesSortToLog(log: seq<Entry>, claims: bool, a: seq<Entry>, b: seq<Entry>, off: nat)
    requires AllSteps(log) && StrictBy(HeldLog(log, claims), Key) && off <= 1
    requires |a| + |b| == |log| && (if off == 0 then |b| <= |a| <= |b| + 1 else |a| <= |b| <= |a| + 1)
    requires forall i :: 0 <= i < |a| ==> 2 * i + off < |log| && a[i] == Held(log[2 * i + off], claims)
    requires forall i :: 0 <= i < |b| ==> 2 * i + 1 - off < |log| && b[i] == Held(log[2 * i + 1 - off], claims)
    ensures AllSteps(a + b) && SortEntries(a + b) == HeldLog(log, claims)
  {
    hide HeldLog, Held, Place, StrictBy, Sort, Key;
    var h, es := HeldLog(log, claims), a + b;
    var pos, inv := Placements(|a|, |b|, off);
    forall i | 0 <= i < |es| ensures es[i] == h[pos[i]] && es[i].payload.Step? {
      EntryAtPlace(log, claims, a, b, off, i);
    }
    ShuffleSorts(es, h, pos, inv, Key);
  }

  /** The audit one peer runs over the rival's reveals. */
  function AuditBy(u: Setup, me: Peer, revealed: seq<Record>): Result<Reconstruction> {
    var theirs :- VerifyReveals(me.theirRecords, revealed);
    Reconstruct(me.ownRecords, theirs, u.terms, Some(u.subGame))
  }

  ghost function ReplayVerdict(u: Setup, log: seq<Entry>, claims: bool): Result<Reconstruction>
    requires AllSteps(log)
  {
    var r := Replayed(u, log, claims);
    if r.Err? then Err(r.error) else Verdict(r.value)
  }

  /** At the end everything sent was heard. */
  ghost predicate AllHeard(s: Sys) {
    && s.police.theirStep == s.thief.myStep && s.thief.theirStep == s.police.myStep
    && s.police.myStep <= s.thief.myStep <= s.police.myStep + 1
  }

  lemma FinishedAllHeard(u: Setup, s: Sys)
    requires Inv(u, s) && s.Finished()
    ensures AllHeard(s)
  {
  }

  lemma HalfLength(own: seq<Record>, role: Role, sub: int, log: seq<Entry>, off: nat, n: nat)
    requires OwnHalf(own, role, sub, log, off, n)
    ensures |own| == n + 1
  {
  }

  lemma HeardLength(theirs: seq<Record>, own: seq<Record>, log: seq<Entry>, off: nat, n: nat)
    requires HeardHalf(theirs, own, log, off, n)
    ensures |OpenedAll(theirs)| == |theirs| == n
  {
  }

  /** The list an auditor sorts: its own half from `off`, then the rival's opened half. */
  lemma AuditorsEntries(
    own: seq<Record>, theirs: seq<Record>, rival: seq<Record>, log: seq<Entry>, off: nat,
    role: Role, sub: int, n: nat, k: nat, claims: bool) returns (a: seq<Entry>, b: seq<Entry>)
    requires off <= 1 && claims == (off == 0) && Unclaimed(log, 0)
    requires OwnHalf(own, role, sub, log, off, n) && OwnHalf(rival, role.Rival(), sub, log, 1 - off, k)
    requires HeardHalf(theirs, rival, log, 1 - off, k)
    ensures VerifyReveals(theirs, rival) == Ok(OpenedAll(theirs))
    ensures Entries(own + OpenedAll(theirs)) == Ok(a + b) && |a| == n && |b| == k
    ensures forall i :: 0 <= i < n ==> 2 * i + off < |log| && a[i] == Held(log[2 * i + off], claims)
    ensures forall i :: 0 <= i < k ==> 2 * i + 1 - off < |log| && b[i] == Held(log[2 * i + 1 - off], claims)
  {
    hide Entries, OpensHalf, OwnHalf, HeardHalf, Unclaimed, VerifyReveals, OpenedAll, Held;
    HalfLength(own, role, sub, log, off, n);
    HeardLength(theirs, rival, log, 1 - off, k);
    OwnHalfOpens(own, role, sub, log, off, n, claims);
    HeardHalfOpens(theirs, rival, role.Rival(), sub, log, 1 - off, k, claims);
    HalfEntries(own[1..], log, off, claims);
    HalfEntries(OpenedAll(theirs), log, 1 - off, claims);
    EntriesConcat(own, OpenedAll(theirs));
    a, b := Entries(own).value, Entries(OpenedAll(theirs)).value;
  }

  /** Sorted, that list is the held log. */
  lemma AuditorsList(
    own: seq<Record>, theirs: seq<Record>, rival: seq<Record>, log: seq<Entry>, off: nat,
    role: Role, sub: int, n: nat, k: nat, claims: bool)
    requires off <= 1 && n + k == |log| && (if off == 0 then k <= n <= k + 1 else n <= k <= n + 1)
    requires OwnHalf(own, role, sub, log, off, n) && OwnHalf(rival, role.Rival(), sub, log, 1 - off, k)
    requires HeardHalf(theirs, rival, log, 1 - off, k)
    requires Unclaimed(log, 0) && claims == (off == 0)
    requires AllSteps(log) && StrictBy(HeldLog(log, claims), Key)
    ensures VerifyReveals(theirs, rival) == Ok(OpenedAll(theirs))
    ensures var es := Entries(own + OpenedAll(theirs)); es.Ok? && SortEntries(es.value) == HeldLog(log, claims)
  {
    var a, b := AuditorsEntries(own, theirs, rival, log, off, role, sub, n, k, claims);
    HalvesSortToLog(log, claims, a, b, off);
  }

  lemma AuditsAreReplays(u: Setup, s: Sys)
    requires Inv(u, s) && HistoryInv(u, s) && s.Finished()
    ensures AllSteps(s.log)
    ensures AuditBy(u, s.police, s.thief.ownRecords) == ReplayVerdict(u, s.log, false)
    ensures AuditBy(u, s.thief, s.police.ownRecords) == ReplayVerdict(u, s.log, true)
  {
    var p, t := s.police, s.thief;
    FinishedAllHeard(u, s);
    LogInOrder(u, s, true);
    LogInOrder(u, s, false);
    AuditorsList(p.ownRecords, p.theirRecords, t.ownRecords, s.log, 1, Police, u.subGame, p.myStep, t.myStep, false);
    AuditorsList(t.ownRecords, t.theirRecords, p.ownRecords, s.log, 0, Thief, u.subGame, t.myStep, p.myStep, true);
    AuditFromList(u, p, t.ownRecords, s.log, false);
    AuditFromList(u, t, p.ownRecords, s.log, true);
  }

  lemma AuditFromList(u: Setup, me: Peer, revealed: seq<Record>, log: seq<Entry>, claims: bool)
    requires AllSteps(log)
    requires VerifyReveals(me.theirRecords, revealed) == Ok(OpenedAll(me.theirRecords))
    requires var es := Entries(me.ownRecords + OpenedAll(me.theirRecords));
      es.Ok? && SortEntries(es.value) == HeldLog(log, claims)
    ensures AuditBy(u, me, revealed) == ReplayVerdict(u, log, claims)
  {
  }

  /** Dropping live claims can only remove refusals. */
  lemma {:induction false} ClaimsOnlyRefuse(u: Setup, log: seq<Entry>)
    requires AllSteps(log) && Replayed(u, log, true).Ok?
    ensures Replayed(u, log, false) == Replayed(u, log, true)
  {
    if log != [] {
      var n := |log| - 1;
      assert log == log[..n] + [log[n]];
      ReplayedSnoc(u, log[..n], log[n], true);
      ReplayedSnoc(u, log[..n], log[n], false);
      ClaimsOnlyRefuse(u, log[..n]);
    }
  }

  /** The main result.  For every finished run of two honest peers, each auditor's
      replay reproduces the game that peer lived - same outcome, same clock - if
      and only if the thief never stayed put straight after an unclaimed
      co-location; and then both auditors hold one and the same reconstruction,
      whose digest is that of the true final board. */
  lemma AuditCompleteness(u: Setup, labels: seq<Label>)
    requires u.Valid() && Run(Start(u), labels).Some? && Run(Start(u), labels).value.Finished()
    ensures var s := Run(Start(u), labels).value;
      var p, t := s.police.own, s.thief.own;
      var byPolice, byThief := AuditBy(u, s.police, s.thief.ownRecords), AuditBy(u, s.thief, s.police.ownRecords);
      && (!StayedUnasked(Start(u), labels) <==>
            byPolice.Ok? && byPolice.value.outcome == p.outcome && byPolice.value.turns == p.turns)
      && (!StayedUnasked(Start(u), labels) <==>
            byThief.Ok? && byThief.value.outcome == t.outcome && byThief.value.turns == t.turns)
      && (!StayedUnasked(Start(u), labels) ==>
            byPolice == byThief && byPolice.value.digest == EndDigest(p.cell, t.cell, p.walls, p.turns, p.outcome))
  {
    StartInv(u);
    StartHistory(u);
    StartCoupled(u, true);
    StartCoupled(u, false);
    RunWhole(u, Start(u), labels);
    var s := Run(Start(u), labels).value;
    AuditsAreReplays(u, s);
    if !s.misread {
      ClaimsOnlyRefuse(u, s.log);
    }
  }
}
