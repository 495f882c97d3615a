/** The truth duty over whole runs: a denied claim is answered exactly, with the thief's
    next message, and the answer tells nothing else about where the thief is. */
module Answers {
  import opened Primitives
  import opened OwnState
  import opened Messages
  import opened Perception
  import opened HiddenTurns
  import opened Protocol
  import opened StepEffects
  import opened Agreement
  import opened TurnLoop

  /** The answer owed to the last police message, if that claimed a cell. */
  function Denial(last: Option<Message>): Option<Response> {
    if last.Some? && last.value.claim.Some? then Some(Response(last.value.claim.value, false)) else None
  }

  /** Whenever the thief is to move it holds just that answer. */
  ghost predicate OwesDenial(u: Setup, s: Sys, last: Option<Message>) {
    ThiefToMove(u, s) ==> s.thief.pending == Denial(last)
  }

  function LastHeard(last: Option<Message>, heard: seq<(Message, nat)>): Option<Message> {
    if heard == [] then last else Some(heard[|heard| - 1].0)
  }

  lemma HearingOwes(s: Sys, s': Sys)
    requires s.Valid() && PoliceHeard(s, s', None)
    ensures s'.thief.pending == Denial(Some(s.toThief[0]))
  {
    hide Observed, Dense, Live;
  }

  lemma NextOwes(u: Setup, s: Sys, l: Label, last: Option<Message>)
    requires Inv(u, s) && Next(s, l).Some? && OwesDenial(u, s, last)
    ensures OwesDenial(u, Next(s, l).value,
      if l.Hears? && l.role == Thief && s.toThief != [] then Some(s.toThief[0]) else last)
  {
    hide *;
    var s', m, closing := NextStepped(u, s, l);
    PhasesApart(u, s');
    ThiefPhases(u, s, s', l);
    if ThiefToHear(u, s) && closing.None? {
      HearingOwes(s, s');
      OwedAnew(u, s, s', l, last);
    } else {
      NotToMove(u, s, s', l, last);
    }
  }

  lemma ThiefPhases(u: Setup, s: Sys, s': Sys, l: Label)
    ensures EndedBySurvival(u, s') || EndedByCapture(u, s') ==> !ThiefToMove(u, s')
    ensures ThiefToHear(u, s) ==> s.toThief != []
  {
  }

  lemma OwedAnew(u: Setup, s: Sys, s': Sys, l: Label, last: Option<Message>)
    requires s.toThief != [] && l.Hears? && l.role == Thief && s'.thief.pending == Denial(Some(s.toThief[0]))
    ensures OwesDenial(u, s', if l.Hears? && l.role == Thief && s.toThief != [] then Some(s.toThief[0]) else last)
  {
  }

  lemma NotToMove(u: Setup, s: Sys, s': Sys, l: Label, last: Option<Message>)
    requires !ThiefToMove(u, s')
    ensures OwesDenial(u, s', if l.Hears? && l.role == Thief && s.toThief != [] then Some(s.toThief[0]) else last)
  {
  }

  lemma {:induction false} RunOwes(u: Setup, s: Sys, labels: seq<Label>, last: Option<Message>)
    requires Inv(u, s) && Run(s, labels).Some? && OwesDenial(u, s, last)
    ensures OwesDenial(u, Run(s, labels).value, LastHeard(last, HeardBy(Thief, s, labels)))
    decreases labels
  {
    hide Inv, OwesDenial, Next, HeardBy;
    InvFrame(u, s);
    if labels == [] {
      NothingNew(s);
    } else {
      var l, s' := labels[0], Next(s, labels[0]).value;
      var last' := if l.Hears? && l.role == Thief && s.toThief != [] then Some(s.toThief[0]) else last;
      NextInv(u, s, l);
      NextOwes(u, s, l, last);
      RunOwes(u, s', labels[1..], last');
      InputsCons(s, labels, Thief);
      if l.Hears? && l.role == Thief && s.toThief != [] {
        LastOfCons(last, (s.toThief[0], l.nonce), HeardBy(Thief, s', labels[1..]));
      }
    }
  }

  lemma NothingNew(s: Sys)
    requires s.Valid()
    ensures HeardBy(Thief, s, []) == []
  {
  }

  lemma LastOfCons(last: Option<Message>, h: (Message, nat), heard: seq<(Message, nat)>)
    ensures LastHeard(last, [h] + heard) == LastHeard(Some(h.0), heard)
  {
  }

  /** In every honest run the thief's next message answers the claim of the last police
      message it heard, if that made one: it repeats the claimed cell and denies it.  A
      message that answers no claim answers nothing. */
  lemma DenialsAnswerTheClaim(u: Setup, labels: seq<Label>, ch: Choice)
    requires u.Valid() && Run(Start(u), labels).Some?
    requires var s := Run(Start(u), labels).value; ThiefToMove(u, s) && MyHalfTurn(s.thief, ch).Ok?
    ensures var s := Run(Start(u), labels).value;
      MyHalfTurn(s.thief, ch).value.1.response == Denial(LastHeard(None, HeardBy(Thief, Start(u), labels)))
  {
    hide Run, Start, HeardBy, ThiefToMove, Next;
    StartInv(u);
    var s := Run(Start(u), labels).value;
    StartOwes(u);
    RunInv(u, Start(u), labels);
    RunOwes(u, Start(u), labels, None);
    ResponseIsPending(u, s, ch);
  }

  lemma StartOwes(u: Setup)
    requires u.Valid()
    ensures OwesDenial(u, Start(u), None)
  {
  }

  lemma ResponseIsPending(u: Setup, s: Sys, ch: Choice)
    requires Inv(u, s) && ThiefToMove(u, s) && MyHalfTurn(s.thief, ch).Ok?
    ensures MyHalfTurn(s.thief, ch).value.1.response == s.thief.pending
  {
    InvFrame(u, s);
    var p', m := ThiefPlays(s.thief, ch);
  }

  /** So a denial gives nothing away: two thieves, wherever they stand, that both deny
      one police message owe the same answer. */
  lemma DenialsAreAlike(p: Peer, q: Peer, m: Message, nonce: nat)
    requires p.Valid() && p.own.role == Thief && p.own.token == Police && p.own.outcome == Ongoing && p.pending == None
    requires q.Valid() && q.own.role == Thief && q.own.token == Police && q.own.outcome == Ongoing && q.pending == None
    requires FromPolice(p.own, m) && FromPolice(q.own, m)
    requires TheirHalfTurn(p, m, nonce).Ok? && TheirHalfTurn(p, m, nonce).value.1 == None
    requires TheirHalfTurn(q, m, nonce).Ok? && TheirHalfTurn(q, m, nonce).value.1 == None
    ensures TheirHalfTurn(p, m, nonce).value.0.pending == TheirHalfTurn(q, m, nonce).value.0.pending
    ensures TheirHalfTurn(p, m, nonce).value.0.pending ==
      if m.claim.Some? then Some(Response(m.claim.value, false)) else None
  {
    hide TheirHalfTurn;
    var p', closing := ThiefHearsPolice(p, m, nonce);
    var q', closing' := ThiefHearsPolice(q, m, nonce);
  }
}
