/** What the audit accepts, said without its machinery of provisional and disputed
    captures: an independent description of the record lists that replay, proved
    equivalent to the replay. */
module ReplaySoundness {
  import opened Primitives
  import opened Boards
  import opened OwnState
  import opened Messages
  import opened Audit
  import Sorting

  datatype Position = Position(walls: set<Cell>, cop: Cell, thief: Cell)

  /** The signed geometry and rules of a real game. */
  predicate Playable(t: Terms) {
    t.grid >= 2 && t.rules.Valid() && InBounds(t.grid, t.copStart) && InBounds(t.grid, t.thiefStart)
  }

  function Stepped(s: Position, p: Payload): Position
    requires p.Step?
  {
    match p.action
    case Wall(c) => s.(walls := s.walls + {c})
    case Go(m) => if p.role == Police then s.(cop := Applied(m, s.cop)) else s.(thief := Applied(m, s.thief))
  }

  function After(t: Terms, es: seq<Entry>): Position
    requires AllSteps(es)
  {
    if es == [] then Position({}, t.copStart, t.thiefStart)
    else Stepped(After(t, es[..|es| - 1]), es[|es| - 1].payload)
  }

  /** The round clock: the thief's own half-turns. */
  function Rounds(es: seq<Entry>): nat
    requires AllSteps(es)
  {
    if es == [] then 0 else Rounds(es[..|es| - 1]) + (if es[|es| - 1].payload.role == Thief then 1 else 0)
  }

  predicate ByPolice(es: seq<Entry>)
    requires AllSteps(es)
  {
    es != [] && es[|es| - 1].payload.role == Police
  }

  predicate SealedIn(t: Terms, es: seq<Entry>)
    requires AllSteps(es)
  {
    LawCapture(t.grid, After(t, es).walls, After(t, es).thief)
  }

  /** The police half-turn just played left the walls on or around the thief, or the
      thief's own half-turn ran out the clock: over, whatever anybody says. */
  predicate EndsForGood(t: Terms, es: seq<Entry>)
    requires AllSteps(es)
  {
    es != [] && if ByPolice(es) then SealedIn(t, es) else Rounds(es) >= t.rules.Limit()
  }

  /** The police half-turn just played put both on one cell: over if conceded. */
  predicate Landing(t: Terms, es: seq<Entry>)
    requires AllSteps(es)
  {
    ByPolice(es) && !SealedIn(t, es) && After(t, es).cop == After(t, es).thief
  }

  predicate Ends(t: Terms, es: seq<Entry>)
    requires AllSteps(es)
  {
    EndsForGood(t, es) || Landing(t, es)
  }

  /** The physics of one half-turn: reach, bounds, quota, and only the police build. */
  predicate LegalEntry(t: Terms, s: Position, p: Payload)
    requires p.Step?
  {
    match p.action
    case Wall(c) => p.role == Police && LegalWall(t.grid, s.walls, t.rules, s.cop, c)
    case Go(m) => LegalMove(t.grid, s.walls, if p.role == Police then s.cop else s.thief, m)
  }

  predicate SubGameOk(sub: Option<int>, p: Payload)
    requires p.Step?
  {
    sub.None? || p.subGame == sub.value
  }

  /** `e` may follow a game that went `before`. */
  predicate MayFollow(t: Terms, sub: Option<int>, before: seq<Entry>, e: Entry)
    requires AllSteps(before) && e.payload.Step?
  {
    && SubGameOk(sub, e.payload) && !EndsForGood(t, before) && (Landing(t, before) ==> !Closure(e.payload))
    && LegalEntry(t, After(t, before), e.payload)
    && (e.payload.role == Police && e.claim.Some? ==>
          e.claim.value == Stepped(After(t, before), e.payload).cop)
  }

  ghost predicate Played(t: Terms, sub: Option<int>, es: seq<Entry>)
    requires AllSteps(es)
  {
    forall k :: 0 <= k < |es| ==> MayFollow(t, sub, es[..k], es[k])
  }

  /** A whole game: `n` half-turns played to an end, then only concessions. */
  ghost predicate WholeGame(t: Terms, sub: Option<int>, es: seq<Entry>, n: nat)
    requires AllSteps(es)
  {
    && n <= |es| && Played(t, sub, es[..n]) && Ends(t, es[..n])
    && forall k :: n <= k < |es| ==> SubGameOk(sub, es[k].payload) && Closure(es[k].payload)
  }

  function Proven(t: Terms, es: seq<Entry>): Evidence
    requires AllSteps(es) && es != []
  {
    Evidence(es[|es| - 1].payload.step, After(t, es).cop)
  }

  /** The last landing that the game played past. */
  function PlayedPast(t: Terms, es: seq<Entry>): Option<Evidence>
    requires AllSteps(es)
  {
    if es == [] then None
    else
      var before := es[..|es| - 1];
      if Landing(t, before) then Some(Proven(t, before)) else PlayedPast(t, before)
  }

  function VerdictOf(t: Terms, es: seq<Entry>): Outcome
    requires AllSteps(es)
  {
    if !Ends(t, es) then Ongoing else if ByPolice(es) then Capture else Survival
  }

  /** What the replay holds after a game in progress. */
  function Standing(t: Terms, es: seq<Entry>): Replay
    requires AllSteps(es)
  {
    var s := After(t, es);
    Replay(s.walls, s.cop, s.thief, Rounds(es), VerdictOf(t, es),
           if Landing(t, es) then Some(Proven(t, es)) else None, PlayedPast(t, es))
  }

  lemma PlayedPrefix(t: Terms, sub: Option<int>, es: seq<Entry>, n: nat)
    requires AllSteps(es) && n <= |es| && Played(t, sub, es)
    ensures Played(t, sub, es[..n])
  {
    forall k | 0 <= k < n ensures MayFollow(t, sub, es[..n][..k], es[..n][k]) {
      assert es[..n][..k] == es[..k];
    }
  }

  lemma PlayedSnoc(t: Terms, sub: Option<int>, es: seq<Entry>)
    requires AllSteps(es) && es != []
    ensures var n := |es| - 1; Played(t, sub, es) <==> Played(t, sub, es[..n]) && MayFollow(t, sub, es[..n], es[n])
  {
    var n := |es| - 1;
    if Played(t, sub, es) {
      PlayedPrefix(t, sub, es, n);
    }
    if Played(t, sub, es[..n]) && MayFollow(t, sub, es[..n], es[n]) {
      forall k | 0 <= k < |es| ensures MayFollow(t, sub, es[..k], es[k]) {
        if k < n {
          assert es[..n][..k] == es[..k];
          assert MayFollow(t, sub, es[..n][..k], es[..n][k]);
        }
      }
    }
  }

  /** Along any legal game: bounds, quota, and while it is not over for good an
      unsealed thief and an unfinished clock. */
  lemma {:induction false} PlayedPhysics(t: Terms, sub: Option<int>, es: seq<Entry>)
    requires Playable(t) && AllSteps(es) && Played(t, sub, es)
    ensures var s := After(t, es);
      && InBounds(t.grid, s.cop) && InBounds(t.grid, s.thief) && |s.walls| <= t.rules.maxBarriers
      && Rounds(es) <= t.rules.Limit()
      && (ByPolice(es) || !SealedIn(t, es))
      && (!EndsForGood(t, es) ==> !SealedIn(t, es) && Rounds(es) < t.rules.Limit())
      && (ByPolice(es) ==> Rounds(es) < t.rules.Limit())
  {
    if es == [] {
      OpenBoardSealsNobody(t.grid, t.thiefStart);
    } else {
      var n := |es| - 1;
      PlayedSnoc(t, sub, es);
      PlayedPhysics(t, sub, es[..n]);
      var s, p := After(t, es[..n]), es[n].payload;
      if p.role == Thief {
        OwnMoveNeverSeals(t.grid, s.walls, s.thief, p.action.move);
      }
    }
  }

  lemma EnactIsMoved(t: Terms, s: Replay, p: Payload)
    requires p.Step?
    ensures var q := Position(s.walls, s.cop, s.thief);
      && (Enact(t, s, p).Ok? <==> LegalEntry(t, q, p))
      && (LegalEntry(t, q, p) ==>
            var q' := Stepped(q, p); Enact(t, s, p) == Ok(s.(walls := q'.walls, cop := q'.cop, thief := q'.thief)))
  {
  }

  /** The replay about to enact an entry that may follow: any pending landing is now
      a disputed one. */
  function Reopened(t: Terms, before: seq<Entry>, e: Entry): Replay
    requires AllSteps(before) && e.payload.Step?
  {
    var s := After(t, before);
    assert (before + [e])[..|before|] == before;
    Replay(s.walls, s.cop, s.thief, Rounds(before), Ongoing, None, PlayedPast(t, before + [e]))
  }

  lemma JudgeStands(t: Terms, sub: Option<int>, before: seq<Entry>, e: Entry)
    requires Playable(t) && AllSteps(before) && e.payload.Step? && AllSteps(before + [e])
    requires Played(t, sub, before) && Played(t, sub, before + [e]) && !EndsForGood(t, before)
    ensures var s := After(t, before + [e]);
      Judge(t, Reopened(t, before, e).(walls := s.walls, cop := s.cop, thief := s.thief), e.payload)
        == Standing(t, before + [e])
  {
    var es := before + [e];
    assert es[..|before|] == before && es[|es| - 1] == e;
    PlayedPhysics(t, sub, before);
    PlayedPhysics(t, sub, es);
  }

  lemma StandingReopens(t: Terms, sub: Option<int>, before: seq<Entry>, e: Entry)
    requires AllSteps(before) && e.payload.Step? && !EndsForGood(t, before)
    ensures var s := Standing(t, before);
      Reopened(t, before, e) ==
        if s.outcome == Ongoing then s else s.(disputed := s.pending, pending := None, outcome := Ongoing)
  {
    assert (before + [e])[..|before|] == before;
  }

  /** One replay step from a game in progress, when the entry may follow. */
  lemma StepFollows(t: Terms, sub: Option<int>, before: seq<Entry>, e: Entry)
    requires Playable(t) && AllSteps(before) && e.payload.Step? && Played(t, sub, before)
    requires MayFollow(t, sub, before, e)
    ensures AllSteps(before + [e])
    ensures Played(t, sub, before + [e])
    ensures ReplayStep(t, sub, Standing(t, before), e) == Ok(Standing(t, before + [e]))
  {
    hide Played, Judge, Enact, LegalEntry, Surrounded, Reopened;
    var es := before + [e];
    assert es[..|before|] == before && es[|es| - 1] == e;
    PlayedSnoc(t, sub, es);
    StandingReopens(t, sub, before, e);
    EnactIsMoved(t, Reopened(t, before, e), e.payload);
    JudgeStands(t, sub, before, e);
    assert After(t, es) == Stepped(After(t, before), e.payload);
  }

  /** One replay step from a game in progress, when the entry may not follow. */
  lemma StepStops(t: Terms, sub: Option<int>, before: seq<Entry>, e: Entry)
    requires AllSteps(before) && e.payload.Step? && !MayFollow(t, sub, before, e)
    ensures var r := ReplayStep(t, sub, Standing(t, before), e);
      if Ends(t, before) && Closure(e.payload) && SubGameOk(sub, e.payload)
      then r == Ok(Standing(t, before).(pending := None)) else r.Err?
  {
    if !EndsForGood(t, before) {
      StandingReopens(t, sub, before, e);
      EnactIsMoved(t, Reopened(t, before, e), e.payload);
    }
  }

  /** After the end, only concessions. */
  lemma StepClosed(t: Terms, sub: Option<int>, s: Replay, e: Entry)
    requires s.outcome != Ongoing && s.pending == None && e.payload.Step?
    ensures ReplayStep(t, sub, s, e) ==
      if SubGameOk(sub, e.payload) && Closure(e.payload) then Ok(s) else Err(GameRule)
  {
  }

  lemma WholeGameSnoc(t: Terms, sub: Option<int>, es: seq<Entry>, n: nat)
    requires AllSteps(es) && n < |es|
    ensures WholeGame(t, sub, es, n) <==>
      && WholeGame(t, sub, es[..|es| - 1], n)
      && SubGameOk(sub, es[|es| - 1].payload) && Closure(es[|es| - 1].payload)
  {
    assert es[..|es| - 1][..n] == es[..n];
  }

  /** A game that ended and was conceded is not one that could still go on. */
  lemma EndIsUnique(t: Terms, sub: Option<int>, es: seq<Entry>, n: nat, m: nat)
    requires AllSteps(es) && n < m <= |es| && Played(t, sub, es[..m])
    ensures !WholeGame(t, sub, es, n)
  {
    assert es[..m][..n] == es[..n] && es[..m][n] == es[n];
    assert MayFollow(t, sub, es[..m][..n], es[..m][n]);
  }

  lemma NotPlayedPast(t: Terms, sub: Option<int>, es: seq<Entry>, n: nat, m: nat)
    requires AllSteps(es) && n < m <= |es| && WholeGame(t, sub, es, n)
    ensures !Played(t, sub, es[..m])
  {
    assert es[..m][..n] == es[..n] && es[..m][n] == es[n];
    assert !MayFollow(t, sub, es[..m][..n], es[..m][n]);
  }

  ghost predicate Described(t: Terms, sub: Option<int>, es: seq<Entry>)
    requires AllSteps(es)
  {
    && (Played(t, sub, es) ==> ReplayAll(t, sub, es) == Ok(Standing(t, es)))
    && (forall n :: 0 <= n < |es| && WholeGame(t, sub, es, n) ==>
          ReplayAll(t, sub, es) == Ok(Standing(t, es[..n]).(pending := None)))
    && (ReplayAll(t, sub, es).Ok? ==> Played(t, sub, es) || exists n :: 0 <= n < |es| && WholeGame(t, sub, es, n))
  }

  lemma DescribedFromPlay(t: Terms, sub: Option<int>, es: seq<Entry>)
    requires Playable(t) && AllSteps(es) && es != []
    requires var before := es[..|es| - 1];
      Played(t, sub, before) && ReplayAll(t, sub, before) == Ok(Standing(t, before))
    ensures Described(t, sub, es)
  {
    var k := |es| - 1;
    var before, e := es[..k], es[k];
    assert es == before + [e];
    PlayedSnoc(t, sub, es);
    assert before[..k] == before;
    forall n | 0 <= n < k ensures !WholeGame(t, sub, es, n) {
      EndIsUnique(t, sub, before, n, k);
      WholeGameSnoc(t, sub, es, n);
    }
    WholeGameSnoc(t, sub, es, k);
    if MayFollow(t, sub, before, e) {
      StepFollows(t, sub, before, e);
    } else {
      StepStops(t, sub, before, e);
      if Ends(t, before) && Closure(e.payload) && SubGameOk(sub, e.payload) {
        assert WholeGame(t, sub, es, k);
      }
    }
  }

  lemma DescribedFromEnd(t: Terms, sub: Option<int>, es: seq<Entry>, n: nat)
    requires Playable(t) && AllSteps(es) && n < |es| - 1
    requires var before := es[..|es| - 1];
      WholeGame(t, sub, before, n) && ReplayAll(t, sub, before) == Ok(Standing(t, before[..n]).(pending := None))
    ensures Described(t, sub, es)
  {
    var k := |es| - 1;
    var before, e := es[..k], es[k];
    assert before[..n] == es[..n];
    StepClosed(t, sub, Standing(t, es[..n]).(pending := None), e);
    WholeGameSnoc(t, sub, es, n);
    assert before[..k] == before;
    NotPlayedPast(t, sub, before, n, k);
    PlayedSnoc(t, sub, es);
    WholeGameSnoc(t, sub, es, n);
    forall m | 0 <= m < |es| && m != n ensures !WholeGame(t, sub, es, m) {
      WholeGameSnoc(t, sub, es, m);
      if m < n {
        EndIsUnique(t, sub, before, m, n);
      } else {
        NotPlayedPast(t, sub, before, n, m);
      }
    }
  }

  lemma DescribedFromRefusal(t: Terms, sub: Option<int>, es: seq<Entry>)
    requires AllSteps(es) && es != []
    requires var before := es[..|es| - 1];
      && Described(t, sub, before) && !Played(t, sub, before)
      && !exists n :: 0 <= n < |before| && WholeGame(t, sub, before, n)
    ensures Described(t, sub, es)
  {
    var k := |es| - 1;
    PlayedSnoc(t, sub, es);
    assert es[..k][..k] == es[..k];
    forall n | 0 <= n < |es| ensures !WholeGame(t, sub, es, n) {
      WholeGameSnoc(t, sub, es, n);
    }
  }

  /** The replay of any list of half-turns, described. */
  lemma {:induction false} ReplayDescribed(t: Terms, sub: Option<int>, es: seq<Entry>)
    requires Playable(t) && AllSteps(es)
    ensures Described(t, sub, es)
    decreases |es|
  {
    if es != [] {
      var before := es[..|es| - 1];
      ReplayDescribed(t, sub, before);
      if Played(t, sub, before) {
        DescribedFromPlay(t, sub, es);
      } else if n :| 0 <= n < |before| && WholeGame(t, sub, before, n) {
        DescribedFromEnd(t, sub, es, n);
      } else {
        DescribedFromRefusal(t, sub, es);
      }
    }
  }

  /** The verdict a whole game of `n` half-turns deserves. */
  function GameVerdict(t: Terms, es: seq<Entry>, n: nat): Reconstruction
    requires AllSteps(es) && n <= |es|
  {
    var s, outcome := After(t, es[..n]), if ByPolice(es[..n]) then Capture else Survival;
    Reconstruction(EndDigest(s.cop, s.thief, s.walls, Rounds(es[..n]), outcome), outcome, Rounds(es[..n]),
                   PlayedPast(t, es[..n]))
  }

  lemma VerdictOfStanding(t: Terms, es: seq<Entry>, n: nat, pending: Option<Evidence>)
    requires AllSteps(es) && n <= |es| && Ends(t, es[..n])
    ensures Verdict(Standing(t, es[..n]).(pending := pending)) == Ok(GameVerdict(t, es, n))
  {
  }

  lemma VerdictDescribed(t: Terms, sub: Option<int>, es: seq<Entry>, n: nat)
    requires Playable(t) && AllSteps(es) && Described(t, sub, es) && n <= |es| && WholeGame(t, sub, es, n)
    ensures ReplayAll(t, sub, es).Ok? && Verdict(ReplayAll(t, sub, es).value) == Ok(GameVerdict(t, es, n))
  {
    var held := Standing(t, es[..n]);
    if n == |es| {
      assert es[..n] == es;
      VerdictOfStanding(t, es, n, held.pending);
    } else {
      VerdictOfStanding(t, es, n, None);
    }
  }

  lemma VerdictNeedsEnd(t: Terms, sub: Option<int>, es: seq<Entry>)
    requires Playable(t) && AllSteps(es) && Described(t, sub, es)
    requires ReplayAll(t, sub, es).Ok? && Verdict(ReplayAll(t, sub, es).value).Ok?
    ensures exists n :: 0 <= n <= |es| && WholeGame(t, sub, es, n)
  {
    assert es[..|es|] == es;
    if Played(t, sub, es) {
      assert WholeGame(t, sub, es, |es|);
    }
  }

  /** What was said openly beside a half-turn is what it sealed: exactly the wall it
      places, none on a move, and the same hint. */
  predicate OpenlyTrue(p: Payload, d: Declared)
    requires p.Step?
  {
    && (match p.action
        case Wall(c) => d.barrier == Some(c)
        case Go(_) => d.barrier == None)
    && (d.hint.Some? ==> d.hint.value == p.hint)
  }

  /** No revealed half-turn was declared live otherwise than it was sealed. */
  predicate DeclaredAsSealed(rs: seq<Record>) {
    forall i :: 0 <= i < |rs| && rs[i].payload.Some? && rs[i].payload.value.Step? && rs[i].declared.Some? ==>
      OpenlyTrue(rs[i].payload.value, rs[i].declared.value)
  }

  lemma {:induction false} EntriesNeedHonestDeclarations(rs: seq<Record>)
    ensures Entries(rs).Ok? <==> DeclaredAsSealed(rs)
  {
    if rs != [] {
      var front, last := rs[..|rs| - 1], rs[|rs| - 1];
      EntriesNeedHonestDeclarations(front);
      assert rs == front + [last];
      assert forall i :: 0 <= i < |front| ==> rs[i] == front[i];
    }
  }

  /** The entry of a revealed half-turn: what it sealed, and the claim said beside it. */
  predicate EntryOf(r: Record, e: Entry) {
    && r.payload == Some(e.payload) && e.payload.Step?
    && e.claim == (if r.declared.Some? then r.declared.value.claim else None)
  }

  /** `es` holds the revealed half-turns of `rs`, all of them, once each and in order;
      `at` says where they stand. */
  ghost predicate Lists(rs: seq<Record>, es: seq<Entry>, at: seq<nat>) {
    && |at| == |es|
    && (forall k :: 0 <= k < |at| ==> at[k] < |rs| && EntryOf(rs[at[k]], es[k]))
    && (forall j, k :: 0 <= j < k < |at| ==> at[j] < at[k])
    && forall i :: 0 <= i < |rs| && rs[i].payload.Some? && rs[i].payload.value.Step? ==> i in at
  }

  lemma ListsOneMore(rs: seq<Record>, es: seq<Entry>, at: seq<nat>, r: Record, e: Entry)
    requires Lists(rs, es, at) && EntryOf(r, e)
    ensures Lists(rs + [r], es + [e], at + [|rs|])
  {
    var at' := at + [|rs|];
    forall i | 0 <= i < |rs| + 1 && (rs + [r])[i].payload.Some? && (rs + [r])[i].payload.value.Step? ensures i in at' {
      if i == |rs| {
        assert at'[|at|] == i;
      } else {
        assert (rs + [r])[i] == rs[i] && i in at;
      }
    }
  }

  lemma ListsNoMore(rs: seq<Record>, es: seq<Entry>, at: seq<nat>, r: Record)
    requires Lists(rs, es, at) && !(r.payload.Some? && r.payload.value.Step?)
    ensures Lists(rs + [r], es, at)
  {
    forall i | 0 <= i < |rs| + 1 && (rs + [r])[i].payload.Some? && (rs + [r])[i].payload.value.Step? ensures i in at {
      assert i < |rs| && (rs + [r])[i] == rs[i];
    }
  }

  lemma {:induction false} EntriesListed(rs: seq<Record>) returns (at: seq<nat>)
    requires Entries(rs).Ok?
    ensures Lists(rs, Entries(rs).value, at)
  {
    hide Lists;
    if rs == [] {
      at := [];
      NothingListed();
    } else {
      var front, last := rs[..|rs| - 1], rs[|rs| - 1];
      at := EntriesListed(front);
      assert rs == front + [last];
      if Replayable(last) {
        ListsOneMore(front, Entries(front).value, at, last, Entries(rs).value[|Entries(front).value|]);
        at := at + [|front|];
      } else {
        ListsNoMore(front, Entries(front).value, at, last);
      }
    }
  }

  lemma NothingListed()
    ensures Lists([], [], [])
  {
  }

  /** The sorted list is one whole game of `n` half-turns and what may follow it. */
  ghost predicate HoldsGame(own: seq<Record>, theirs: seq<Record>, t: Terms, sub: Option<int>, n: nat) {
    && Entries(own + theirs).Ok?
    && var es := SortEntries(Entries(own + theirs).value); n <= |es| && WholeGame(t, sub, es, n)
  }

  /** The main result.  The audit accepts exactly the records whose declarations match
      their seals and whose half-turns, with the claims said beside them, are in game
      order one whole legal game followed by nothing but the thief's concessions; and
      then it returns the verdict of that game. */
  lemma AuditAcceptsWholeGames(own: seq<Record>, theirs: seq<Record>, t: Terms, sub: Option<int>)
    requires Playable(t)
    ensures Entries(own + theirs).Ok? <==> DeclaredAsSealed(own + theirs)
    ensures Entries(own + theirs).Ok? ==> exists at :: Lists(own + theirs, Entries(own + theirs).value, at)
    ensures Reconstruct(own, theirs, t, sub).Ok? <==>
      DeclaredAsSealed(own + theirs) && exists n :: HoldsGame(own, theirs, t, sub, n)
    ensures forall n :: HoldsGame(own, theirs, t, sub, n) ==>
      Reconstruct(own, theirs, t, sub) == Ok(GameVerdict(t, SortEntries(Entries(own + theirs).value), n))
  {
    EntriesNeedHonestDeclarations(own + theirs);
    if Entries(own + theirs).Ok? {
      var at := EntriesListed(own + theirs);
      ReplayedGames(own, theirs, t, sub);
    }
  }

  lemma ReplayedGames(own: seq<Record>, theirs: seq<Record>, t: Terms, sub: Option<int>)
    requires Playable(t) && Entries(own + theirs).Ok?
    ensures Reconstruct(own, theirs, t, sub).Ok? <==> exists n :: HoldsGame(own, theirs, t, sub, n)
    ensures forall n :: HoldsGame(own, theirs, t, sub, n) ==>
      Reconstruct(own, theirs, t, sub) == Ok(GameVerdict(t, SortEntries(Entries(own + theirs).value), n))
  {
    var es := SortEntries(Entries(own + theirs).value);
    ReplayDescribed(t, sub, es);
    forall n | HoldsGame(own, theirs, t, sub, n)
      ensures Reconstruct(own, theirs, t, sub) == Ok(GameVerdict(t, es, n))
    {
      VerdictDescribed(t, sub, es, n);
    }
    if Reconstruct(own, theirs, t, sub).Ok? {
      VerdictNeedsEnd(t, sub, es);
      var n: nat :| n <= |es| && WholeGame(t, sub, es, n);
      assert HoldsGame(own, theirs, t, sub, n);
    }
  }

  /** What an accepted audit proves about the game, whoever wrote the records. */
  lemma ReplaySound(own: seq<Record>, theirs: seq<Record>, t: Terms, sub: Option<int>) returns (n: nat)
    requires Playable(t) && Reconstruct(own, theirs, t, sub).Ok?
    ensures Entries(own + theirs).Ok?
    ensures var es, r := SortEntries(Entries(own + theirs).value), Reconstruct(own, theirs, t, sub).value;
      && 0 < n <= |es| && WholeGame(t, sub, es, n)
      && var s := After(t, es[..n]);
      && InBounds(t.grid, s.cop) && InBounds(t.grid, s.thief) && |s.walls| <= t.rules.maxBarriers
      && (r.outcome == Capture || r.outcome == Survival)
      && (r.outcome == Capture <==> es[n - 1].payload.role == Police)
      && (r.outcome == Capture ==>
            (LawCapture(t.grid, s.walls, s.thief) || s.cop == s.thief) && r.turns < t.rules.Limit())
      && (r.outcome == Survival ==> r.turns == t.rules.Limit() && !LawCapture(t.grid, s.walls, s.thief))
      && (forall k :: n <= k < |es| ==> es[k].payload.role == Thief && es[k].payload.action == Go(Stay))
  {
    AuditAcceptsWholeGames(own, theirs, t, sub);
    var es := SortEntries(Entries(own + theirs).value);
    n :| HoldsGame(own, theirs, t, sub, n);
    WholeGameFacts(t, sub, es, n);
  }

  lemma WholeGameFacts(t: Terms, sub: Option<int>, es: seq<Entry>, n: nat)
    requires Playable(t) && AllSteps(es) && n <= |es| && WholeGame(t, sub, es, n)
    ensures var s, r := After(t, es[..n]), GameVerdict(t, es, n);
      && 0 < n
      && InBounds(t.grid, s.cop) && InBounds(t.grid, s.thief) && |s.walls| <= t.rules.maxBarriers
      && (r.outcome == Capture || r.outcome == Survival)
      && (r.outcome == Capture <==> es[n - 1].payload.role == Police)
      && (r.outcome == Capture ==>
            (LawCapture(t.grid, s.walls, s.thief) || s.cop == s.thief) && r.turns < t.rules.Limit())
      && (r.outcome == Survival ==> r.turns == t.rules.Limit() && !LawCapture(t.grid, s.walls, s.thief))
    ensures forall k :: n <= k < |es| ==> es[k].payload.role == Thief && es[k].payload.action == Go(Stay)
  {
    PlayedPhysics(t, sub, es[..n]);
    forall k | n <= k < |es| ensures es[k].payload.role == Thief && es[k].payload.action == Go(Stay) {
      assert Closure(es[k].payload);
    }
  }

  /** With distinct (step, role) keys the verdict does not depend on which list a
      record came in, or where. */
  lemma RecordOrderFree(own: seq<Record>, theirs: seq<Record>, own': seq<Record>, theirs': seq<Record>, t: Terms,
      sub: Option<int>)
    requires Entries(own + theirs).Ok? && Entries(own' + theirs').Ok?
    requires Sorting.DistinctBy(Entries(own + theirs).value, Key)
    requires Sorting.DistinctBy(Entries(own' + theirs').value, Key)
    requires forall e :: e in Entries(own + theirs).value <==> e in Entries(own' + theirs').value
    ensures Reconstruct(own, theirs, t, sub) == Reconstruct(own', theirs', t, sub)
  {
    OrderFree(Entries(own + theirs).value, Entries(own' + theirs').value, t, sub);
  }
}
