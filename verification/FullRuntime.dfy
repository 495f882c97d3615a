/** A peer with its whole perception: the half-turn it receives moves its belief map as
    well as its state. */
module FullRuntime {
  import opened Primitives
  import opened Boards
  import opened Scent
  import opened OwnState
  import opened Messages
  import opened Perception
  import opened HiddenTurns
  import opened Belief
  import opened FullPerception

  /** What parsing finds in a hint, and the weights that the profiler gives it. */
  datatype Parsed = Parsed(
    echo: Option<Move>, claim: Option<Move>, landmark: set<Cell>, weights: Option<(real, real)>)

  /** A wall counts as news only when it was not standing before; a claim is as it came. */
  function TalkOf(o: Own, m: Message, hint: Parsed): Talk {
    Talk(hint.echo, hint.claim, hint.landmark, hint.weights,
         if m.barrier.Some? && m.barrier.value !in o.walls then m.barrier else None, m.claim)
  }

  /** The own state once the public part of a message has entered it. */
  function Entered(p: Peer, m: Message): (o: Own)
    requires p.Valid()
    ensures o.Valid() && o.grid == p.own.grid
  {
    var o := Absorbed(p.own, m);
    if o.Ok? then o.value else p.own
  }

  /** The sighting a peer takes from a message. */
  ghost function SightingIn(p: Peer, m: Message, hint: Parsed): (o: Sighting)
    requires p.Valid()
    ensures Square(p.own.grid, o.evidence)
  {
    SightingOf(p.trust, Entered(p, m).rival, Entered(p, m).walls, TalkOf(p.own, m, hint))
  }

  /** Is the cell to be pinned, if any, one that the grid can be indexed with? */
  predicate PinFits(p: Peer, m: Message, hint: Parsed)
    requires p.Valid()
  {
    var o, talk := Entered(p, m), TalkOf(p.own, m, hint);
    var pin := PinOf(HeadOf(p.trust, o.rival), talk.barrier, talk.claimed);
    Accepted(p.trust, o.rival, o.walls) && pin.Some? ==> Indexable(p.own.grid, pin.value)
  }

  /** The belief after a received half-turn; the concession is not judged. */
  ghost function Believes(p: Peer, belief: Field, m: Message, hint: Parsed): (f: Field)
    requires p.Valid() && p.own.grid > 0 && Square(p.own.grid, belief)
    ensures Square(p.own.grid, f)
  {
    if Conceded(m) then belief
    else Perceived(p.own.grid, belief, Entered(p, m).walls, SightingIn(p, m, hint))
  }

  /** A wall that was standing before is no news, and a fresh one is. */
  lemma OldWallIsNoNews(p: Peer, belief: Field, m: Message, hint: Parsed)
    requires p.Valid() && p.own.grid > 0 && Square(p.own.grid, belief)
    requires m.barrier.Some? && InBounds(p.own.grid, m.barrier.value)
    ensures m.barrier.value in p.own.walls ==>
      Believes(p, belief, m, hint) == Believes(p, belief, m.(barrier := None), hint)
    ensures m.barrier.value !in p.own.walls ==> SightingIn(p, m, hint).barrier == m.barrier
  {
    hide Updated, Perceived, SightingOf;
    if m.barrier.value in p.own.walls {
      assert Absorbed(p.own, m) == Absorbed(p.own, m.(barrier := None));
    } else {
      WallSighted(p, m, hint);
    }
  }

  lemma WallSighted(p: Peer, m: Message, hint: Parsed)
    requires p.Valid()
    ensures SightingIn(p, m, hint).barrier == TalkOf(p.own, m, hint).barrier
  {
  }

  /** What a receipt does to the own state and to the trust. */
  lemma ReceiptFacts(p: Peer, m: Message)
    requires p.Valid() && Received(p, m).Ok?
    ensures var o, p' := Entered(p, m), Received(p, m).value;
      && p'.own == o.(outcome := p'.own.outcome)
      && p'.trust == (if Conceded(m) then p.trust else Observed(p.trust, o.rival, o.walls))
    ensures m.barrier.Some? ==> InBounds(p.own.grid, m.barrier.value)
  {
    hide Observed, Live, OutcomeOnReceipt, Updated;
  }

  class FullPeer {
    const rt: HiddenRuntime
    const perceiver: Perceiver

    ghost predicate Apart()
      reads this, rt, rt.own, rt.own.Repr, perceiver
    {
      && rt.Valid() && perceiver as object !in rt.own.Repr && perceiver.observer as object !in rt.own.Repr
      && perceiver.belief as object !in rt.own.Repr
    }

    /** The trust of the runtime is the one its perception keeps. */
    ghost predicate Valid()
      reads this, rt, rt.own, rt.own.Repr, perceiver, perceiver.observer, perceiver.belief
    {
      Apart() && perceiver.Valid() && perceiver.observer.View() == rt.trust
    }

    constructor (role: Role, g: nat, start: Cell, rivalStart: Cell, rules: Rules, subGame: int, eps: real, nonce: nat)
      requires g >= 2 && InBounds(g, start) && rules.Valid()
      ensures Valid() && fresh(rt) && fresh(rt.own.Repr) && fresh(perceiver.belief)
      ensures rt.View() == FreshPeer(role, g, start, rivalStart, rules, subGame, eps, nonce)
      ensures perceiver.belief.p == Uniform(g)
    {
      rt := new HiddenRuntime(role, g, start, rivalStart, rules, subGame, eps, nonce);
      perceiver := new Perceiver(g, eps, true, Some(rivalStart));
    }

    /** The message enters state, trust and belief, and the boundary verdict is drawn. */
    method Receive(m: Message, hint: Parsed) returns (r: Result<()>)
      requires Valid()
      modifies rt, rt.own.Repr, perceiver.observer, perceiver.belief
      ensures Apart()
      ensures match Received(old(rt.View()), m)
        case Err(e) => r == Err(e)
        case Ok(p) =>
          if !Conceded(m) && !PinFits(old(rt.View()), m, hint) then r == Err(OffBoard)
          else
            && r.Ok? && Valid() && rt.View() == p
            && perceiver.belief.p == Believes(old(rt.View()), old(perceiver.belief.p), m, hint)
    {
      hide Received, Absorbed, Observed, SightingOf, Perceived, Accepted, HeadOf, PinOf;
      ghost var p0 := rt.View();
      var news := if m.barrier.Some? && m.barrier.value !in rt.own.board.walls then m.barrier else None;
      var talk := Talk(hint.echo, hint.claim, hint.landmark, hint.weights, news, m.claim);
      var _ :- rt.Receive(m);
      ReceiptFacts(p0, m);
      if !(m.Caught() && m.sender == Thief) {
        var _ :- perceiver.Observe(rt.own.received.values, rt.own.board.walls, talk);
      }
      return Ok(());
    }

    /** their_half_turn with everything it moves: the peer, its answer, and its belief. */
    method TakeTheirHalfTurn(m: Message, nonce: nat, hint: Parsed) returns (r: Result<Option<Message>>)
      requires Valid()
      modifies rt, rt.own.Repr, perceiver.observer, perceiver.belief
      ensures Apart()
      ensures match TheirHalfTurn(old(rt.View()), m, nonce)
        case Err(e) => r == Err(e)
        case Ok((p, answer)) =>
          if !Conceded(m) && !PinFits(old(rt.View()), m, hint) then r == Err(OffBoard)
          else
            && r == Ok(answer) && Valid() && rt.View() == p
            && perceiver.belief.p == Believes(old(rt.View()), old(perceiver.belief.p), m, hint)
    {
      hide Received, Believes, PinFits, TruthDuty;
      var _ :- Receive(m, hint);
      if rt.own.role == Thief && rt.own.outcome == Ongoing {
        DutyKeepsTrust(rt.View(), m, nonce);
        var answer := rt.AnswerTruthfully(m, nonce);
        return Ok(answer);
      }
      return Ok(None);
    }
  }

  lemma DutyKeepsTrust(p: Peer, m: Message, nonce: nat)
    requires p.Valid()
    ensures TruthDuty(p, m, nonce).0.trust == p.trust
  {
  }
}
