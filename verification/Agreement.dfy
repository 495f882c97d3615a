/** What every reachable state of the two-peer system keeps: turn tokens, clocks,
    barriers, outcomes, and the bound on the length of a game. */
module Agreement {
  import opened Primitives
  import opened Scent
  import opened Boards
  import opened OwnState
  import opened Messages
  import opened Perception
  import opened HiddenTurns
  import opened Protocol
  import opened StepEffects

  /** The signed terms, held identically on both sides, and legal positions. */
  ghost predicate Frame(u: Setup, s: Sys) {
    var p, t := s.police.own, s.thief.own;
    && s.Valid() && !s.broken
    && p.role == Police && t.role == Thief
    && p.grid == t.grid == u.terms.grid && p.rules == t.rules == u.terms.rules
    && s.police.subGame == s.thief.subGame == u.subGame
    && InBounds(u.terms.grid, p.cell) && InBounds(u.terms.grid, t.cell)
    && |p.walls| <= u.terms.rules.maxBarriers
    && s.police.pending == None
  }

  ghost predicate Clocks(s: Sys, policeTurns: int, policeStep: int, policeHeard: int, thiefStep: int, thiefHeard: int) {
    && s.police.own.turns == policeTurns && s.police.myStep == policeStep && s.police.theirStep == policeHeard
    && s.thief.myStep == thiefStep && s.thief.theirStep == thiefHeard
  }

  /** The thief may act: both sides know the same board and the same clock. */
  ghost predicate ThiefToMove(u: Setup, s: Sys) {
    var p, t := s.police.own, s.thief.own;
    && s.toPolice == [] && s.toThief == []
    && p.outcome == Ongoing && t.outcome == Ongoing && p.token == Thief && t.token == Thief
    && Clocks(s, t.turns, t.turns, t.turns, t.turns, t.turns)
    && t.turns < u.terms.rules.Limit() && p.walls == t.walls && !t.Captured()
    && (s.thief.pending.Some? ==> !s.thief.pending.value.caught)
  }

  ghost predicate ThiefMessage(u: Setup, s: Sys, m: Message) {
    && m.sender == Thief && m.step == s.police.theirStep + 1 == s.thief.myStep
    && m.barrier == None && m.claim == None
    && s.Valid() && m.smell == Serialize(s.thief.own.grid, s.thief.own.scent)
  }

  ghost predicate PoliceToHear(u: Setup, s: Sys) {
    var p, t := s.police.own, s.thief.own;
    && |s.toPolice| == 1 && s.toThief == []
    && p.outcome == Ongoing && t.outcome == (if t.turns >= u.terms.rules.Limit() then Survival else Ongoing)
    && p.token == Thief && t.token == Police
    && 1 <= t.turns <= u.terms.rules.Limit()
    && Clocks(s, t.turns - 1, t.turns - 1, t.turns - 1, t.turns, t.turns - 1)
    && p.walls == t.walls && !t.Captured() && s.thief.pending == None
    && ThiefMessage(u, s, s.toPolice[0])
    && !s.toPolice[0].Caught() && (s.toPolice[0].win <==> t.turns >= u.terms.rules.Limit())
  }

  ghost predicate PoliceToMove(u: Setup, s: Sys) {
    var p, t := s.police.own, s.thief.own;
    && s.toPolice == [] && s.toThief == []
    && p.outcome == Ongoing && t.outcome == Ongoing && p.token == Police && t.token == Police
    && 1 <= t.turns < u.terms.rules.Limit()
    && Clocks(s, t.turns, t.turns - 1, t.turns, t.turns, t.turns - 1)
    && p.walls == t.walls && !t.Captured() && s.thief.pending == None
  }

  ghost predicate PoliceMessage(u: Setup, s: Sys, m: Message) {
    var p, t := s.police.own, s.thief.own;
    && m.sender == Police && m.step == s.thief.theirStep + 1 == s.police.myStep
    && m.response == None && !m.win
    && (m.claim.Some? ==> m.claim.value == p.cell && m.barrier == None)
    && s.Valid() && m.smell == Serialize(p.grid, p.scent)
    && (if m.barrier.Some?
        then Passable(u.terms.grid, t.walls, m.barrier.value) && |t.walls| < u.terms.rules.maxBarriers
             && p.walls == t.walls + {m.barrier.value}
        else p.walls == t.walls)
  }

  ghost predicate ThiefToHear(u: Setup, s: Sys) {
    var p, t := s.police.own, s.thief.own;
    && s.toPolice == [] && |s.toThief| == 1
    && p.outcome == Ongoing && t.outcome == Ongoing && p.token == Thief && t.token == Police
    && 1 <= t.turns < u.terms.rules.Limit()
    && Clocks(s, t.turns, t.turns, t.turns, t.turns, t.turns - 1)
    && !t.Captured() && s.thief.pending == None
    && PoliceMessage(u, s, s.toThief[0])
  }

  ghost predicate Conceding(u: Setup, s: Sys) {
    var p, t := s.police.own, s.thief.own;
    && |s.toPolice| == 1 && s.toThief == []
    && p.outcome == Ongoing && t.outcome == Capture && p.token == Thief && t.token == Thief
    && 1 <= t.turns < u.terms.rules.Limit()
    && Clocks(s, t.turns, t.turns, t.turns, t.turns + 1, t.turns)
    && p.walls == t.walls
    && ThiefMessage(u, s, s.toPolice[0]) && s.toPolice[0].Caught()
  }

  ghost predicate EndedBySurvival(u: Setup, s: Sys) {
    var p, t := s.police.own, s.thief.own;
    && s.toPolice == [] && s.toThief == []
    && p.outcome == Survival && t.outcome == Survival
    && t.turns == u.terms.rules.Limit()
    && Clocks(s, t.turns, t.turns - 1, t.turns, t.turns, t.turns - 1)
    && p.walls == t.walls
  }

  ghost predicate EndedByCapture(u: Setup, s: Sys) {
    var p, t := s.police.own, s.thief.own;
    && s.toPolice == [] && s.toThief == []
    && p.outcome == Capture && t.outcome == Capture
    && 1 <= t.turns < u.terms.rules.Limit()
    && Clocks(s, t.turns, t.turns, t.turns + 1, t.turns + 1, t.turns)
    && p.walls == t.walls
  }

  ghost predicate Inv(u: Setup, s: Sys) {
    Frame(u, s) &&
    (ThiefToMove(u, s) || PoliceToHear(u, s) || PoliceToMove(u, s) || ThiefToHear(u, s) || Conceding(u, s)
     || EndedBySurvival(u, s) || EndedByCapture(u, s))
  }

  lemma StartInv(u: Setup)
    requires u.Valid()
    ensures Frame(u, Start(u)) && ThiefToMove(u, Start(u))
  {
    OpenBoardSealsNobody(u.terms.grid, u.terms.thiefStart);
  }

  lemma ThiefActsNext(u: Setup, s: Sys, ch: Choice) returns (s': Sys, m: Message)
    requires Frame(u, s) && ThiefToMove(u, s) && Next(s, Acts(Thief, ch)).Some?
    ensures Next(s, Acts(Thief, ch)) == Some(s') && s'.Valid() && ThiefActed(s, s', ch.action, m)
  {
    ActShape(s, Thief, ch);
    var p';
    p', m := ThiefPlays(s.thief, ch);
    s' := Next(s, Acts(Thief, ch)).value;
  }

  lemma ThiefActedPhase(u: Setup, s: Sys, s': Sys, a: Action, m: Message)
    requires Frame(u, s) && ThiefToMove(u, s) && s'.Valid() && ThiefActed(s, s', a, m)
    ensures Frame(u, s') && PoliceToHear(u, s')
  {
    assert s'.thief.own.SurvivalReached() <==> s'.thief.own.turns >= u.terms.rules.Limit();
  }

  lemma PoliceActsNext(u: Setup, s: Sys, ch: Choice) returns (s': Sys, m: Message)
    requires Frame(u, s) && PoliceToMove(u, s) && Next(s, Acts(Police, ch)).Some?
    ensures Next(s, Acts(Police, ch)) == Some(s') && s'.Valid() && PoliceActed(s, s', ch.action, m)
  {
    ActShape(s, Police, ch);
    var p';
    p', m := PolicePlays(s.police, ch);
    s' := Next(s, Acts(Police, ch)).value;
  }

  lemma PoliceActedPhase(u: Setup, s: Sys, s': Sys, a: Action, m: Message)
    requires Frame(u, s) && PoliceToMove(u, s) && s'.Valid() && PoliceActed(s, s', a, m)
    ensures Frame(u, s') && ThiefToHear(u, s')
  {
  }

  lemma PoliceHearsNext(u: Setup, s: Sys, nonce: nat) returns (s': Sys)
    requires Frame(u, s) && PoliceToHear(u, s)
    ensures Next(s, Hears(Police, nonce)) == Some(s') && s'.Valid() && StepHeard(s, s')
  {
    var p' := PoliceHearsStep(s.police, s.toPolice[0], nonce);
    HearShape(s, Police, nonce, p', None);
    s' := Next(s, Hears(Police, nonce)).value;
    assert s.toThief + [] == s.toThief && s.log + [] == s.log;
  }

  lemma StepHeardPhase(u: Setup, s: Sys, s': Sys)
    requires Frame(u, s) && PoliceToHear(u, s) && s'.Valid() && StepHeard(s, s')
    ensures Frame(u, s') && (PoliceToMove(u, s') || EndedBySurvival(u, s'))
  {
    hide Observed, Dense, Serialize, Updated;
    assert s'.police.own.SurvivalReached() <==> s'.police.own.turns >= u.terms.rules.Limit();
  }

  lemma ThiefHearsNext(u: Setup, s: Sys, nonce: nat) returns (s': Sys, closing: Option<Message>)
    requires Frame(u, s) && ThiefToHear(u, s)
    ensures Next(s, Hears(Thief, nonce)) == Some(s') && s'.Valid() && PoliceHeard(s, s', closing)
  {
    var p';
    p', closing := ThiefHearsPolice(s.thief, s.toThief[0], nonce);
    HearShape(s, Thief, nonce, p', closing);
    s' := Next(s, Hears(Thief, nonce)).value;
  }

  lemma PoliceHeardPhase(u: Setup, s: Sys, s': Sys, closing: Option<Message>)
    requires Frame(u, s) && ThiefToHear(u, s) && s'.Valid() && PoliceHeard(s, s', closing)
    ensures Frame(u, s') && (if closing.None? then ThiefToMove(u, s') else Conceding(u, s'))
  {
    hide Frame, ThiefToHear, PoliceHeard, ThiefToMove, Conceding;
    if closing.None? {
      PlaysOnPhase(u, s, s');
    } else {
      ConcedesPhase(u, s, s', closing);
    }
  }

  lemma PlaysOnPhase(u: Setup, s: Sys, s': Sys)
    requires Frame(u, s) && ThiefToHear(u, s) && s'.Valid() && PoliceHeard(s, s', None)
    ensures Frame(u, s') && ThiefToMove(u, s')
  {
    hide Observed, Dense, Serialize, Updated, Live, Surrounded, Passable;
    assert s'.thief.own.walls == s'.police.own.walls;
  }

  lemma ConcedesPhase(u: Setup, s: Sys, s': Sys, closing: Option<Message>)
    requires Frame(u, s) && ThiefToHear(u, s) && s'.Valid() && PoliceHeard(s, s', closing) && closing.Some?
    ensures Frame(u, s') && Conceding(u, s')
  {
    hide Observed, Dense, Serialize, Updated, Live, Surrounded, Passable;
    assert s'.thief.own.walls == s'.police.own.walls;
  }

  lemma ConcessionHeardNext(u: Setup, s: Sys, nonce: nat) returns (s': Sys)
    requires Frame(u, s) && Conceding(u, s)
    ensures Next(s, Hears(Police, nonce)) == Some(s') && s'.Valid() && ConcessionHeard(s, s')
  {
    var p' := PoliceHearsConcession(s.police, s.toPolice[0], nonce);
    HearShape(s, Police, nonce, p', None);
    s' := Next(s, Hears(Police, nonce)).value;
    assert s.toThief + [] == s.toThief && s.log + [] == s.log;
  }

  lemma ConcessionHeardPhase(u: Setup, s: Sys, s': Sys)
    requires Frame(u, s) && Conceding(u, s) && s'.Valid() && ConcessionHeard(s, s')
    ensures Frame(u, s') && EndedByCapture(u, s')
  {
  }

  /** In each phase only one peer can step, and in only one way. */
  lemma WhoseTurn(u: Setup, s: Sys, l: Label)
    requires Inv(u, s) && Next(s, l).Some?
    ensures !EndedBySurvival(u, s) && !EndedByCapture(u, s)
    ensures ThiefToMove(u, s) ==> l.Acts? && l.role == Thief
    ensures PoliceToMove(u, s) ==> l.Acts? && l.role == Police
    ensures ThiefToHear(u, s) ==> l.Hears? && l.role == Thief
    ensures PoliceToHear(u, s) || Conceding(u, s) ==> l.Hears? && l.role == Police
  {
  }

  /** The phases exclude each other. */
  lemma PhasesApart(u: Setup, s: Sys)
    ensures ThiefToMove(u, s) ==> !PoliceToMove(u, s) && !PoliceToHear(u, s) && !ThiefToHear(u, s) && !Conceding(u, s)
    ensures PoliceToMove(u, s) ==> !PoliceToHear(u, s) && !ThiefToHear(u, s) && !Conceding(u, s)
    ensures PoliceToHear(u, s) ==> !ThiefToHear(u, s) && !Conceding(u, s)
    ensures ThiefToHear(u, s) ==> !Conceding(u, s)
  {
  }

  lemma InvFrame(u: Setup, s: Sys)
    requires Inv(u, s)
    ensures s.Valid() && Frame(u, s)
    ensures ThiefToMove(u, s) || PoliceToMove(u, s) || PoliceToHear(u, s) || ThiefToHear(u, s) || Conceding(u, s)
      || EndedBySurvival(u, s) || EndedByCapture(u, s)
  {
  }

  lemma Head(u: Setup, s: Sys) returns (m: Message)
    requires PoliceToHear(u, s) || ThiefToHear(u, s) || Conceding(u, s)
    ensures m in s.toPolice + s.toThief
  {
    m := if s.toPolice != [] then s.toPolice[0] else s.toThief[0];
  }

  /** Every step does what its phase allows, and keeps the invariant. */
  lemma NextStepped(u: Setup, s: Sys, l: Label) returns (s': Sys, m: Message, closing: Option<Message>)
    requires Inv(u, s) && Next(s, l).Some?
    ensures Next(s, l) == Some(s') && s'.Valid() && Frame(u, s') && s.Valid() && Frame(u, s)
    ensures ThiefToMove(u, s) ==>
      l.Acts? && l.role == Thief && ThiefActed(s, s', l.choice.action, m) && PoliceToHear(u, s')
    ensures PoliceToMove(u, s) ==>
      l.Acts? && l.role == Police && PoliceActed(s, s', l.choice.action, m) && ThiefToHear(u, s')
    ensures PoliceToHear(u, s) ==>
      l.Hears? && l.role == Police && StepHeard(s, s') && (PoliceToMove(u, s') || EndedBySurvival(u, s'))
    ensures ThiefToHear(u, s) ==>
      && l.Hears? && l.role == Thief && PoliceHeard(s, s', closing)
      && (if closing.None? then ThiefToMove(u, s') else Conceding(u, s'))
    ensures Conceding(u, s) ==> l.Hears? && l.role == Police && ConcessionHeard(s, s') && EndedByCapture(u, s')
    ensures ThiefToMove(u, s) || PoliceToMove(u, s) || PoliceToHear(u, s) || ThiefToHear(u, s) || Conceding(u, s)
  {
    hide *;
    InvFrame(u, s);
    WhoseTurn(u, s, l);
    PhasesApart(u, s);
    closing := None;
    if ThiefToMove(u, s) {
      s', m := ThiefActsNext(u, s, l.choice);
      ThiefActedPhase(u, s, s', l.choice.action, m);
    } else if PoliceToMove(u, s) {
      s', m := PoliceActsNext(u, s, l.choice);
      PoliceActedPhase(u, s, s', l.choice.action, m);
    } else if PoliceToHear(u, s) {
      m := Head(u, s);
      s' := PoliceHearsNext(u, s, l.nonce);
      StepHeardPhase(u, s, s');
    } else if ThiefToHear(u, s) {
      m := Head(u, s);
      s', closing := ThiefHearsNext(u, s, l.nonce);
      PoliceHeardPhase(u, s, s', closing);
    } else {
      m := Head(u, s);
      s' := ConcessionHeardNext(u, s, l.nonce);
      ConcessionHeardPhase(u, s, s');
    }
  }

  lemma NextInv(u: Setup, s: Sys, l: Label)
    requires Inv(u, s) && Next(s, l).Some?
    ensures Inv(u, Next(s, l).value)
  {
    var s', m, closing := NextStepped(u, s, l);
  }

  lemma {:induction false} RunInv(u: Setup, s: Sys, labels: seq<Label>)
    requires Inv(u, s) && Run(s, labels).Some?
    ensures Inv(u, Run(s, labels).value)
    decreases labels
  {
    if labels != [] {
      NextInv(u, s, labels[0]);
      RunInv(u, Next(s, labels[0]).value, labels[1..]);
    }
  }

  /** Half-turns sent and heard so far. */
  function Progress(s: Sys): nat {
    s.police.myStep + s.police.theirStep + s.thief.myStep + s.thief.theirStep
  }

  function Sent(s: Sys): nat { s.police.myStep + s.thief.myStep }

  lemma ActCounts(p: Peer, ch: Choice)
    requires p.Valid() && MyHalfTurn(p, ch).Ok?
    ensures var p' := MyHalfTurn(p, ch).value.0; p'.myStep == p.myStep + 1 && p'.theirStep == p.theirStep
  {
  }

  lemma HearCounts(p: Peer, m: Message, nonce: nat)
    requires p.Valid() && TheirHalfTurn(p, m, nonce).Ok?
    ensures var p' := TheirHalfTurn(p, m, nonce).value.0; p'.myStep >= p.myStep && p'.theirStep == p.theirStep + 1
  {
  }

  lemma NextProgress(s: Sys, l: Label)
    requires s.Valid() && Next(s, l).Some? && !Next(s, l).value.broken
    ensures Progress(Next(s, l).value) >= Progress(s) + 1
  {
    var p := if l.role == Thief then s.thief else s.police;
    match l
    case Acts(role, ch) => ActCounts(p, ch);
    case Hears(role, nonce) =>
      var inbox := if role == Thief then s.toThief else s.toPolice;
      if TheirHalfTurn(p, inbox[0], nonce).Ok? {
        HearCounts(p, inbox[0], nonce);
      }
  }

  lemma {:induction false} RunProgress(u: Setup, s: Sys, labels: seq<Label>)
    requires Inv(u, s) && Run(s, labels).Some?
    ensures Progress(Run(s, labels).value) >= Progress(s) + |labels|
    decreases labels
  {
    if labels != [] {
      NextInv(u, s, labels[0]);
      NextProgress(s, labels[0]);
      RunProgress(u, Next(s, labels[0]).value, labels[1..]);
    }
  }

  function Count(b: bool): nat { if b then 1 else 0 }

  /** Who may move next: a peer holding the token in a game it believes open, or
      a message on its way. */
  function Tokens(s: Sys): nat {
    Count(CanAct(s.police)) + Count(CanAct(s.thief)) + |s.toPolice| + |s.toThief|
  }

  /** No side is ever left waiting: until both have finished some step is enabled. */
  lemma NotStuck(u: Setup, s: Sys, choice: Choice)
    requires Inv(u, s) && !s.Finished()
    ensures var stay := choice.(action := Go(Stay));
      || Next(s, Acts(Thief, stay)).Some? || Next(s, Acts(Police, stay)).Some?
      || Next(s, Hears(Thief, 0)).Some? || Next(s, Hears(Police, 0)).Some?
  {
  }

  /** What any state that keeps the invariant says about the two sides. */
  lemma SidesAgree(u: Setup, s: Sys)
    requires Inv(u, s)
    ensures Tokens(s) == Count(!s.Finished())
    ensures var p, t, m := s.police.own, s.thief.own, u.terms.rules.Limit();
      && (s.toThief == [] ==> p.walls == t.walls)
      && (s.toThief != [] ==>
            p.walls == t.walls + (if s.toThief[0].barrier.Some? then {s.toThief[0].barrier.value} else {}))
      && t.turns == p.turns + Count(s.toPolice != [] && !s.toPolice[0].Caught())
      && (s.Finished() ==> p.outcome == t.outcome && p.turns == t.turns && p.walls == t.walls)
      && (s.Finished() ==> p.outcome == Capture || (p.outcome == Survival && p.turns == m))
  {
  }

  lemma ProgressBound(u: Setup, s: Sys)
    requires u.Valid() && Inv(u, s)
    ensures Sent(s) <= 2 * u.terms.rules.Limit() - 1 && Progress(s) <= 2 * (2 * u.terms.rules.Limit() - 1)
  {
  }

  /** Two honest peers, any brains, any run: no handler ever raises, exactly one
      token or message exists until the end, clocks and barriers agree up to the
      message in flight, both sides end with one verdict, and the game is over
      within 2m - 1 messages, m the smaller of the two turn limits. */
  lemma TwoPeerAgreement(u: Setup, labels: seq<Label>)
    requires u.Valid() && Run(Start(u), labels).Some?
    ensures var s := Run(Start(u), labels).value;
      var p, t, m := s.police.own, s.thief.own, u.terms.rules.Limit();
      && Inv(u, s) && !s.broken
      && Tokens(s) == Count(!s.Finished())
      && (s.toThief == [] ==> p.walls == t.walls)
      && (s.toThief != [] ==>
            p.walls == t.walls + (if s.toThief[0].barrier.Some? then {s.toThief[0].barrier.value} else {}))
      && t.turns == p.turns + Count(s.toPolice != [] && !s.toPolice[0].Caught())
      && |p.walls| <= u.terms.rules.maxBarriers
      && (s.Finished() ==> p.outcome == t.outcome && p.turns == t.turns && p.walls == t.walls)
      && (s.Finished() ==> p.outcome == Capture || (p.outcome == Survival && p.turns == m))
      && Sent(s) <= 2 * m - 1
      && |labels| <= 2 * (2 * m - 1)
  {
    StartInv(u);
    RunInv(u, Start(u), labels);
    RunProgress(u, Start(u), labels);
    SidesAgree(u, Run(Start(u), labels).value);
    ProgressBound(u, Run(Start(u), labels).value);
  }
}
