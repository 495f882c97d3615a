/** What one half-turn does to the peer that plays it and to the peer that hears it,
    and what one step does to the two-peer system. */
module StepEffects {
  import opened Primitives
  import opened Boards
  import opened Scent
  import opened OwnState
  import opened Messages
  import opened Perception
  import opened HiddenTurns
  import opened Audit
  import opened Protocol

  // --- one peer ---------------------------------------------------------------

  /** `m` announces the half-turn `a` that `p'` sealed on top of `p`. */
  predicate Seals(p: Peer, p': Peer, role: Role, a: Action, m: Message) {
    && m.sender == role && m.step == p.myStep + 1 == p'.myStep
    && m.commit.payload.Step? && m.barrier == SealedBarrier(m.commit.payload)
    && m.commit.payload.role == role && m.commit.payload.step == p.myStep + 1
    && m.commit.payload.subGame == p.subGame && m.commit.payload.action == a && m.commit.payload.hint == m.hint
    && p'.ownRecords == p.ownRecords + [Sealed(m.commit.payload, m.commit.nonce)]
  }

  /** The thief took a legal step that never ends in a pocket, and its round closed. */
  predicate ThiefPlayed(p: Peer, p': Peer, a: Action, m: Message)
    requires p.Valid()
  {
    var o, o' := p.own, p'.own;
    && Seals(p, p', Thief, a, m)
    && p' == p.(own := o', myStep := p.myStep + 1, pending := None, ownRecords := p'.ownRecords)
    && a.Go? && LegalMove(o.grid, o.walls, o.cell, a.move)
    && o' == CloseTurn(o.(cell := Applied(a.move, o.cell), token := Police)).(
               outcome := if o'.SurvivalReached() then Survival else Ongoing)
    && InBounds(o.grid, o'.cell) && !o'.Captured()
    && m.claim == None && m.smell == Serialize(o'.grid, o'.scent)
    && m.response == p.pending && m.win == o'.SurvivalReached()
  }

  lemma ThiefPlays(p: Peer, ch: Choice) returns (p': Peer, m: Message)
    requires p.Valid() && p.own.role == Thief && p.own.MyTurn() && p.own.outcome == Ongoing
    requires InBounds(p.own.grid, p.own.cell) && !p.own.Captured() && MyHalfTurn(p, ch).Ok?
    ensures MyHalfTurn(p, ch) == Ok((p', m)) && p'.Valid() && ThiefPlayed(p, p', ch.action, m)
    ensures m.hint == ch.hint && m.commit.payload.verdict == ch.verdict && m.commit.nonce == ch.nonce
    ensures m.commit.payload.digest == SelfDigest(p.own.grid, p'.own.cell, p'.own.walls)
  {
    hide Updated, Serialize, Surrounded, Dense;
    OwnMoveNeverSeals(p.own.grid, p.own.walls, p.own.cell, ch.action.move);
    p', m := MyHalfTurn(p, ch).value.0, MyHalfTurn(p, ch).value.1;
  }

  predicate PolicePlayed(p: Peer, p': Peer, a: Action, m: Message)
    requires p.Valid()
  {
    var o, o' := p.own, p'.own;
    && Seals(p, p', Police, a, m)
    && p' == p.(own := o', myStep := p.myStep + 1, pending := None, ownRecords := p'.ownRecords)
    && (match a
        case Go(move) => LegalMove(o.grid, o.walls, o.cell, move)
                         && o' == o.(cell := Applied(move, o.cell), token := Thief)
        case Wall(c) => LegalWall(o.grid, o.walls, o.rules, o.cell, c)
                        && o' == o.(walls := o.walls + {c}, token := Thief))
    && (m.claim.Some? ==> a.Go? && m.claim.value == o'.cell)
    && m.smell == Serialize(o.grid, o.scent) && m.response == p.pending && !m.win
  }

  lemma PolicePlays(p: Peer, ch: Choice) returns (p': Peer, m: Message)
    requires p.Valid() && p.own.role == Police && p.own.MyTurn() && p.own.outcome == Ongoing && MyHalfTurn(p, ch).Ok?
    ensures MyHalfTurn(p, ch) == Ok((p', m)) && p'.Valid() && PolicePlayed(p, p', ch.action, m)
    ensures m.claim == if ch.action.Go? && ch.gate then Some(p'.own.cell) else None
    ensures m.hint == ch.hint && m.commit.payload.verdict == ch.verdict && m.commit.nonce == ch.nonce
    ensures m.commit.payload.digest == SelfDigest(p.own.grid, p'.own.cell, p'.own.walls)
  {
    p', m := MyHalfTurn(p, ch).value.0, MyHalfTurn(p, ch).value.1;
  }

  /** Receipt, but for the own state: booked, counted, and the frame observed. */
  function Receipt(p: Peer, o: Own, m: Message): Peer
    requires p.Valid() && o.Valid() && o.grid == p.own.grid
  {
    p.(own := o, theirStep := p.theirStep + 1, theirRecords := p.theirRecords + [Live(m)],
       trust := Observed(p.trust, Dense(o.grid, m.smell), o.walls))
  }

  /** The police peer's own state after hearing a step that is no concession. */
  function AfterStep(o: Own, m: Message): (o': Own)
    requires o.Valid()
    ensures o'.Valid() && o'.grid == o.grid
  {
    var closed := CloseTurn(o).(rival := Dense(o.grid, m.smell), token := Police);
    closed.(outcome := if m.win || closed.SurvivalReached() then Survival else Ongoing)
  }

  lemma PoliceHearsStep(p: Peer, m: Message, nonce: nat) returns (p': Peer)
    requires p.Valid() && p.own.role == Police && p.own.token == Thief && p.own.outcome == Ongoing
    requires m.sender == Thief && m.barrier == None && !m.Caught()
    ensures TheirHalfTurn(p, m, nonce) == Ok((p', None)) && p'.Valid() && p' == Receipt(p, AfterStep(p.own, m), m)
  {
    p' := TheirHalfTurn(p, m, nonce).value.0;
  }

  /** The police peer after hearing the concession, which is not judged. */
  function AfterConcession(p: Peer, m: Message): Peer
    requires p.Valid()
  {
    p.(own := p.own.(rival := Dense(p.own.grid, m.smell), token := Police, outcome := Capture),
       theirStep := p.theirStep + 1, theirRecords := p.theirRecords + [Live(m)])
  }

  lemma PoliceHearsConcession(p: Peer, m: Message, nonce: nat) returns (p': Peer)
    requires p.Valid() && p.own.role == Police && p.own.token == Thief && p.own.outcome == Ongoing
    requires m.sender == Thief && m.barrier == None && m.Caught()
    ensures TheirHalfTurn(p, m, nonce) == Ok((p', None)) && p'.Valid() && p' == AfterConcession(p, m)
  {
    p' := TheirHalfTurn(p, m, nonce).value.0;
  }

  /** The thief's own state once a police message has entered it. */
  function AfterPolice(o: Own, m: Message): (o': Own)
    requires o.Valid()
    ensures o'.Valid() && o'.grid == o.grid
  {
    o.(walls := o.walls + (if m.barrier.Some? then {m.barrier.value} else {}), rival := Dense(o.grid, m.smell),
      token := Thief)
  }

  /** What an honest police peer sends an honest thief. */
  predicate FromPolice(o: Own, m: Message) {
    && m.sender == Police && m.response == None && !m.win
    && (m.barrier.Some? ==> Passable(o.grid, o.walls, m.barrier.value) && |o.walls| < o.rules.maxBarriers)
  }

  /** The claim is true, or the walls decide: the thief must concede. */
  predicate Caught(o: Own, m: Message) { m.claim == Some(o.cell) || o.Captured() }

  predicate PlaysOn(p: Peer, p': Peer, m: Message)
    requires p.Valid()
  {
    var o := AfterPolice(p.own, m);
    && !Caught(o, m)
    && p' == Receipt(p, o, m).(pending := if m.claim.Some? then Some(Response(m.claim.value, false)) else None)
  }

  predicate Concedes(p: Peer, p': Peer, m: Message, closing: Message)
    requires p.Valid()
  {
    var o := AfterPolice(p.own, m);
    && Caught(o, m) && Seals(p, p', Thief, Go(Stay), closing)
    && p' == Receipt(p, o, m).(
               own := o.(outcome := Capture), myStep := p.myStep + 1, pending := None, ownRecords := p'.ownRecords)
    && closing.response == Some(Response(o.cell, true)) && closing.claim == None && !closing.win
    && closing.hint == FINAL_CAUGHT_HINT && closing.smell == Serialize(o.grid, o.scent)
    && closing.commit.payload.digest == SelfDigest(o.grid, o.cell, o.walls)
  }

  lemma WallAndTokenEnter(o: Own, m: Message)
    requires o.Valid() && o.role == Thief && o.token == Police && FromPolice(o, m)
    ensures Absorbed(o, m) == Ok(AfterPolice(o, m))
  {
    assert o.walls + {} == o.walls;
  }

  lemma PoliceMessageEnters(p: Peer, m: Message)
    requires p.Valid() && p.own.role == Thief && p.own.token == Police && p.own.outcome == Ongoing
    requires FromPolice(p.own, m)
    ensures Received(p, m) == Ok(Receipt(p, AfterPolice(p.own, m), m))
  {
    WallAndTokenEnter(p.own, m);
    assert OutcomeOnReceipt(AfterPolice(p.own, m), m) == Ongoing;
  }

  lemma DutyDone(p: Peer, p1: Peer, m: Message, nonce: nat) returns (p': Peer, closing: Option<Message>)
    requires p.Valid() && p.own.role == Thief && p.own.outcome == Ongoing && p.pending == None
    requires p1 == Receipt(p, AfterPolice(p.own, m), m)
    ensures p1.Valid() && TruthDuty(p1, m, nonce) == (p', closing) && p'.Valid()
    ensures if closing.None? then PlaysOn(p, p', m) else Concedes(p, p', m, closing.value)
  {
    p', closing := TruthDuty(p1, m, nonce).0, TruthDuty(p1, m, nonce).1;
  }

  lemma ThiefHearsPolice(p: Peer, m: Message, nonce: nat) returns (p': Peer, closing: Option<Message>)
    requires p.Valid() && p.own.role == Thief && p.own.token == Police && p.own.outcome == Ongoing && p.pending == None
    requires FromPolice(p.own, m)
    ensures TheirHalfTurn(p, m, nonce) == Ok((p', closing)) && p'.Valid()
    ensures if closing.None? then PlaysOn(p, p', m) else Concedes(p, p', m, closing.value)
  {
    PoliceMessageEnters(p, m);
    var p1 := Receipt(p, AfterPolice(p.own, m), m);
    p', closing := DutyDone(p, p1, m, nonce);
  }

  // --- the system -------------------------------------------------------------

  /** A step by which one peer acts: its half-turn is logged and on its way. */
  lemma ActShape(s: Sys, role: Role, ch: Choice)
    requires s.Valid() && Next(s, Acts(role, ch)).Some?
    ensures var p := if role == Thief then s.thief else s.police;
      && CanAct(p) && MyHalfTurn(p, ch).Ok?
      && var (p', m) := MyHalfTurn(p, ch).value;
         Next(s, Acts(role, ch)) == Some(
           if role == Thief
           then s.(thief := p', toPolice := s.toPolice + [m], log := s.log + [Logged(m)],
                   misread := s.misread || StaysUnasked(s, ch.action))
           else s.(police := p', toThief := s.toThief + [m], log := s.log + [Logged(m)]))
  {
  }

  /** The message, if any, that a hearing peer sends back at once. */
  function Answered(answer: Option<Message>): seq<Message> { if answer.Some? then [answer.value] else [] }

  function AnswerLogged(answer: Option<Message>): seq<Entry> { if answer.Some? then [Logged(answer.value)] else [] }

  lemma HearShape(s: Sys, role: Role, nonce: nat, p': Peer, answer: Option<Message>)
    requires s.Valid()
    requires var p := if role == Thief then s.thief else s.police;
      var inbox := if role == Thief then s.toThief else s.toPolice;
      CanHear(p, inbox) && TheirHalfTurn(p, inbox[0], nonce) == Ok((p', answer))
    ensures Next(s, Hears(role, nonce)) == Some(
      if role == Thief
      then s.(thief := p', toThief := s.toThief[1..], toPolice := s.toPolice + Answered(answer),
              log := s.log + AnswerLogged(answer))
      else s.(police := p', toPolice := s.toPolice[1..], toThief := s.toThief + Answered(answer),
              log := s.log + AnswerLogged(answer)))
  {
  }

  ghost predicate ThiefActed(s: Sys, s': Sys, a: Action, m: Message)
    requires s.Valid()
  {
    && ThiefPlayed(s.thief, s'.thief, a, m)
    && s' == s.(thief := s'.thief, toPolice := s.toPolice + [m], log := s.log + [Logged(m)],
                misread := s.misread || StaysUnasked(s, a))
  }

  ghost predicate PoliceActed(s: Sys, s': Sys, a: Action, m: Message)
    requires s.Valid()
  {
    && PolicePlayed(s.police, s'.police, a, m)
    && s' == s.(police := s'.police, toThief := s.toThief + [m], log := s.log + [Logged(m)])
  }

  ghost predicate StepHeard(s: Sys, s': Sys)
    requires s.Valid()
  {
    && s.toPolice != []
    && s' == s.(police := Receipt(s.police, AfterStep(s.police.own, s.toPolice[0]), s.toPolice[0]),
      toPolice := s.toPolice[1..])
  }

  ghost predicate ConcessionHeard(s: Sys, s': Sys)
    requires s.Valid()
  {
    && s.toPolice != []
    && s' == s.(police := AfterConcession(s.police, s.toPolice[0]), toPolice := s.toPolice[1..])
  }

  ghost predicate PoliceHeard(s: Sys, s': Sys, closing: Option<Message>)
    requires s.Valid()
  {
    && s.toThief != []
    && (if closing.None? then PlaysOn(s.thief, s'.thief, s.toThief[0])
        else Concedes(s.thief, s'.thief, s.toThief[0], closing.value))
    && s' == s.(thief := s'.thief, toThief := s.toThief[1..], toPolice := s.toPolice + Answered(closing),
                log := s.log + AnswerLogged(closing))
  }
}
