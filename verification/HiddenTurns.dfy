/** The half-turn handlers of one peer.  Peer is the value a runtime holds;
  class HiddenRuntime updates it in place, handler by handler. */
module HiddenTurns {
  import opened Primitives
  import opened Boards
  import opened Scent
  import opened OwnState
  import opened Messages
  import opened Perception

  /** Everything a half-turn takes from outside the physics: the brain's action,
      the hint and its truth flag, the belief gate of the capture claim, the nonce. */
  datatype Choice = Choice(action: Action, hint: string, verdict: bool, gate: bool, nonce: nat)

  datatype Peer = Peer(
    own: Own, subGame: int, myStep: nat, theirStep: nat, pending: Option<Response>,
    ownRecords: seq<Record>, theirRecords: seq<Record>, trust: Trust)
  {
    predicate Valid() { own.Valid() && trust.Valid() && trust.grid == own.grid }
  }

  /** A peer right after negotiation: step zero sealed, nothing played. */
  function FreshPeer(
    role: Role, g: nat, start: Cell, rivalStart: Cell, rules: Rules, subGame: int, eps: real, nonce: nat): Peer
  {
    Peer(FreshOwn(role, g, start, rules), subGame, 0, 0, None,
         [Sealed(Typed("step_zero", role), nonce)], [], FreshTrust(g, eps, Some(rivalStart)))
  }

  // --- claims -----------------------------------------------------------------

  /** The honest answer: a function of the own cell and the claimed cell alone. */
  function AnswerClaim(o: Own, claim: Cell): Response { Response(claim, claim == o.cell) }

  function ConcedeDeclaration(o: Own): Response { Response(o.cell, true) }

  /** Only a police move claims, and only behind the belief gate. */
  function CaptureClaim(o: Own, a: Action, gate: bool): Option<Cell> {
    if o.role == Police && a.Go? && gate then Some(o.cell) else None
  }

  // --- my half-turn -----------------------------------------------------------

  datatype Advance = Advance(own: Own, placed: Option<Cell>, captured: bool, win: bool)

  /** Apply the action; the thief's step ticks the round clock unless it walked
      into a capture. */
  function Advanced(o: Own, a: Action): Result<Advance>
    requires o.Valid()
  {
    var (o1, placed) :- ApplyOwn(o, a);
    if o1.role == Police then Ok(Advance(o1, placed, false, false))
    else if o1.Captured() then Ok(Advance(o1, placed, true, false))
    else Ok(Advance(CloseTurn(o1), placed, false, CloseTurn(o1).SurvivalReached()))
  }

  /** The played half-turn of a peer that has already applied it, sealed and sent. */
  function SealedAndSent(p: Peer, ch: Choice, placed: Option<Cell>, captured: bool, win: bool): (Peer, Message)
    requires p.Valid()
  {
    var o := p.own;
    var response := if captured then Some(ConcedeDeclaration(o)) else p.pending;
    var record := Sealed(Step(p.myStep, o.role, p.subGame, o.Digest(), ch.action, ch.hint, ch.verdict), ch.nonce);
    var outcome := if captured then Capture else if win then Survival else o.outcome;
    (p.(own := o.(outcome := outcome), pending := None, ownRecords := p.ownRecords + [record]),
     Message(p.myStep, o.role, ch.hint, Serialize(o.grid, o.scent), record.commit,
             placed, CaptureClaim(o, ch.action, ch.gate), response, win))
  }

  function MyHalfTurn(p: Peer, ch: Choice): (r: Result<(Peer, Message)>)
    requires p.Valid()
    ensures r.Ok? ==> r.value.0.Valid()
  {
    var adv :- Advanced(p.own, ch.action);
    Ok(SealedAndSent(p.(own := adv.own, myStep := p.myStep + 1), ch, adv.placed, adv.captured, adv.win))
  }

  // --- their half-turn --------------------------------------------------------

  /** The action-free sealed closure; no boundary fires. */
  function Concede(p: Peer, nonce: nat): (Peer, Message)
    requires p.Valid()
  {
    var o := p.own;
    var record := Sealed(Step(p.myStep + 1, o.role, p.subGame, o.Digest(), Go(Stay), FINAL_CAUGHT_HINT, true), nonce);
    (p.(myStep := p.myStep + 1, pending := None, ownRecords := p.ownRecords + [record]),
     Message(p.myStep + 1, o.role, FINAL_CAUGHT_HINT, Serialize(o.grid, o.scent), record.commit,
             None, None, p.pending, false))
  }

  predicate Conceded(m: Message) { m.Caught() && m.sender == Thief }

  /** The public part of a received message enters the own state. */
  function Absorbed(o: Own, m: Message): Result<Own>
    requires o.Valid()
  {
    var o1 :- if m.barrier.Some? then NoteBarrier(o, m.barrier.value) else Ok(o);
    var o2 :- NoteHalfTurn(o1.(rival := Dense(o.grid, m.smell)));
    Ok(if o2.role == Police && !Conceded(m) then CloseTurn(o2) else o2)
  }

  function OutcomeOnReceipt(o: Own, m: Message): Outcome {
    if Conceded(m) then Capture
    else if m.win then Survival
    else if o.role == Police && o.SurvivalReached() then Survival
    else o.outcome
  }

  /** The thief's truth duty after an absorbed police message: concede a true
      claim or a law capture at once, otherwise keep the honest answer. */
  function TruthDuty(p: Peer, m: Message, nonce: nat): (Peer, Option<Message>)
    requires p.Valid()
  {
    var pending := if m.claim.Some? then Some(AnswerClaim(p.own, m.claim.value)) else p.pending;
    var hit := pending.Some? && pending.value.caught;
    if hit || p.own.Captured() then
      var response := if hit then pending else Some(ConcedeDeclaration(p.own));
      var (p', closing) := Concede(p.(pending := response, own := p.own.(outcome := Capture)), nonce);
      (p', Some(closing))
    else
      (p.(pending := pending), None)
  }

  /** Receipt: the message enters the state, and the boundary verdict is drawn. */
  function Received(p: Peer, m: Message): Result<Peer>
    requires p.Valid()
  {
    if m.sender == p.own.role then Err(GameRule)
    else
      var o :- Absorbed(p.own, m);
      var trust := if Conceded(m) then p.trust else Observed(p.trust, o.rival, o.walls);
      Ok(p.(own := o.(outcome := OutcomeOnReceipt(o, m)), theirStep := p.theirStep + 1,
            theirRecords := p.theirRecords + [Live(m)], trust := trust))
  }

  function TheirHalfTurn(p: Peer, m: Message, nonce: nat): (r: Result<(Peer, Option<Message>)>)
    requires p.Valid()
    ensures r.Ok? ==> r.value.0.Valid()
  {
    var p1 :- Received(p, m);
    if p1.own.role == Thief && p1.own.outcome == Ongoing then Ok(TruthDuty(p1, m, nonce)) else Ok((p1, None))
  }

  class HiddenRuntime {
    const own: State
    const subGame: int
    var myStep: nat
    var theirStep: nat
    var pending: Option<Response>
    var ownRecords: seq<Record>
    var theirRecords: seq<Record>
    var trust: Trust

    ghost predicate Valid()
      reads this, own, own.Repr
    {
      this !in own.Repr && own.Valid() && trust.Valid() && trust.grid == own.board.grid
    }

    ghost function View(): Peer
      reads this, own, own.board, own.scent, own.received
    {
      Peer(own.View(), subGame, myStep, theirStep, pending, ownRecords, theirRecords, trust)
    }

    constructor (role: Role, g: nat, start: Cell, rivalStart: Cell, rules: Rules, subGame: int, eps: real, nonce: nat)
      requires g >= 2 && InBounds(g, start) && rules.Valid()
      ensures Valid() && fresh(this) && fresh(own.Repr)
      ensures View() == FreshPeer(role, g, start, rivalStart, rules, subGame, eps, nonce)
    {
      var o := new State(role, g, start, rules);
      own, this.subGame := o, subGame;
      myStep, theirStep, pending, theirRecords := 0, 0, None, [];
      ownRecords := [Sealed(Typed("step_zero", role), nonce)];
      trust := FreshTrust(g, eps, Some(rivalStart));
    }

    method Seal(step: nat, action: Action, hint: string, verdict: bool, nonce: nat) returns (commit: Commit)
      requires Valid()
      modifies this`ownRecords
      ensures var payload := Step(step, own.role, subGame, old(own.View()).Digest(), action, hint, verdict);
        ownRecords == old(ownRecords) + [Sealed(payload, nonce)] && commit == Messages.Seal(payload, nonce)
    {
      var payload := Step(step, own.role, subGame, SelfDigest(own.board.grid, own.cell, own.board.walls),
                          action, hint, verdict);
      ownRecords := ownRecords + [Sealed(payload, nonce)];
      commit := Messages.Seal(payload, nonce);
    }

    method Act(a: Action) returns (r: Result<(Option<Cell>, bool, bool)>)
      requires Valid()
      modifies own.Repr
      ensures Valid()
      ensures match Advanced(old(own.View()), a)
        case Err(e) => r == Err(e) && own.View() == old(own.View())
        case Ok(adv) => r == Ok((adv.placed, adv.captured, adv.win)) && own.View() == adv.own
    {
      var placed :- own.ApplyOwnAction(a);
      if own.role == Police {
        return Ok((placed, false, false));
      }
      if LawCapture(own.board.grid, own.board.walls, own.cell) {
        return Ok((placed, true, false));
      }
      own.CloseFullTurn();
      return Ok((placed, false, own.turns >= own.rules.threshold || own.turns >= own.rules.maxMoves));
    }

    /** Seal the played half-turn, put its public part into a message, and end the
        game if the half-turn decided it. */
    method Send(ch: Choice, placed: Option<Cell>, captured: bool, win: bool) returns (m: Message)
      requires Valid()
      modifies this, own`outcome
      ensures Valid() && (View(), m) == SealedAndSent(old(View()), ch, placed, captured, win)
    {
      var response := pending;
      pending := None;
      if captured {
        response := Some(Response(own.cell, true));
      }
      var commit := Seal(myStep, ch.action, ch.hint, ch.verdict, ch.nonce);
      var claim := if own.role == Police && ch.action.Go? && ch.gate then Some(own.cell) else None;
      m := Message(myStep, own.role, ch.hint, Serialize(own.board.grid, own.scent.values), commit,
                   placed, claim, response, win);
      if captured || win {
        own.outcome := if captured then Capture else Survival;
      }
    }

    method TakeMyHalfTurn(ch: Choice) returns (r: Result<Message>)
      requires Valid()
      modifies this, own.Repr
      ensures Valid()
      ensures match MyHalfTurn(old(View()), ch)
        case Err(e) => r == Err(e) && View() == old(View()).(myStep := old(myStep) + 1)
        case Ok((p, m)) => r == Ok(m) && View() == p
    {
      hide Advanced, SealedAndSent, Updated, Serialize, LawCapture;
      myStep := myStep + 1;
      var moved :- Act(ch.action);
      var (placed, captured, win) := moved;
      var m := Send(ch, placed, captured, win);
      return Ok(m);
    }

    method SendConcede(nonce: nat) returns (m: Message)
      requires Valid()
      modifies this
      ensures Valid() && (View(), m) == Concede(old(View()), nonce)
    {
      myStep := myStep + 1;
      var response := pending;
      pending := None;
      var commit := Seal(myStep, Go(Stay), FINAL_CAUGHT_HINT, true, nonce);
      m := Message(myStep, own.role, FINAL_CAUGHT_HINT, Serialize(own.board.grid, own.scent.values), commit,
                   None, None, response, false);
    }

    method AbsorbMessage(m: Message) returns (r: Result<()>)
      requires Valid()
      modifies own.Repr
      ensures Valid()
      ensures match Absorbed(old(own.View()), m)
        case Err(e) => r == Err(e)
        case Ok(o) => r.Ok? && own.View() == o
    {
      if m.barrier.Some? {
        var _ :- own.NoteRivalBarrier(m.barrier.value);
      }
      own.received.Absorb(m.smell);
      var _ :- own.NoteRivalHalfTurn();
      if own.role == Police && !(m.Caught() && m.sender == Thief) {
        own.CloseFullTurn();
      }
      return Ok(());
    }

    method AnswerTruthfully(m: Message, nonce: nat) returns (closing: Option<Message>)
      requires Valid()
      modifies this, own
      ensures Valid() && (View(), closing) == TruthDuty(old(View()), m, nonce)
    {
      if m.claim.Some? {
        pending := Some(Response(m.claim.value, m.claim.value == own.cell));
      }
      var hit := pending.Some? && pending.value.caught;
      if !hit && !LawCapture(own.board.grid, own.board.walls, own.cell) {
        return None;
      }
      if !hit {
        pending := Some(Response(own.cell, true));
      }
      own.outcome := Capture;
      var sent := SendConcede(nonce);
      return Some(sent);
    }

    /** The boundary verdict on a message that is no concession. */
    method DrawVerdict(m: Message)
      requires Valid() && !Conceded(m)
      modifies own`outcome
      ensures Valid() && own.View() == old(own.View()).(outcome := OutcomeOnReceipt(old(own.View()), m))
    {
      if m.win {
        own.outcome := Survival;
      } else if own.role == Police && (own.turns >= own.rules.threshold || own.turns >= own.rules.maxMoves) {
        own.outcome := Survival;
      }
    }

    method Receive(m: Message) returns (r: Result<()>)
      requires Valid()
      modifies this, own.Repr
      ensures Valid()
      ensures match Received(old(View()), m)
        case Err(e) => r == Err(e)
        case Ok(p) => r.Ok? && View() == p
    {
      hide Updated, Live, Absorbed, Observed;
      theirStep := theirStep + 1;
      if m.sender == own.role {
        return Err(GameRule);
      }
      theirRecords := theirRecords + [Live(m)];
      var _ :- AbsorbMessage(m);
      if m.Caught() && m.sender == Thief {
        own.outcome := Capture;
        return Ok(());
      }
      trust := Observed(trust, own.received.values, own.board.walls);
      DrawVerdict(m);
      return Ok(());
    }

    method TakeTheirHalfTurn(m: Message, nonce: nat) returns (r: Result<Option<Message>>)
      requires Valid()
      modifies this, own.Repr
      ensures Valid()
      ensures match TheirHalfTurn(old(View()), m, nonce)
        case Err(e) => r == Err(e)
        case Ok((p, sent)) => r == Ok(sent) && View() == p
    {
      var _ :- Receive(m);
      if own.role == Thief && own.outcome == Ongoing {
        var closing := AnswerTruthfully(m, nonce);
        return Ok(closing);
      }
      return Ok(None);
    }
  }
}
