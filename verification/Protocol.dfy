/** Two honest peers on the hidden wire: a transition system in which each peer
    runs its own loop and messages wait in the rival's inbox. */
module Protocol {
  import opened Primitives
  import opened Boards
  import opened Messages
  import opened HiddenTurns
  import opened Audit

  datatype Setup = Setup(terms: Terms, subGame: int, policeEps: real, thiefEps: real, policeNonce: nat,
      thiefNonce: nat) {
    predicate Valid() {
      && terms.grid >= 2 && terms.rules.Valid()
      && InBounds(terms.grid, terms.copStart) && InBounds(terms.grid, terms.thiefStart)
    }
  }

  /** `log` and `misread` are history: no step reads them.  `log` lists the sealed
      half-turns in the order they were played; `misread` records a thief STAY
      straight after an unclaimed co-location; `broken` records an exception in a
      receiving handler. */
  datatype Sys = Sys(
    police: Peer, thief: Peer, toPolice: seq<Message>, toThief: seq<Message>,
    log: seq<Entry>, misread: bool, broken: bool)
  {
    predicate Valid() { police.Valid() && thief.Valid() }

    predicate Finished() {
      police.own.outcome != Ongoing && thief.own.outcome != Ongoing && toPolice == [] && toThief == []
    }
  }

  function Start(u: Setup): Sys {
    var t := u.terms;
    Sys(FreshPeer(Police, t.grid, t.copStart, t.thiefStart, t.rules, u.subGame, u.policeEps, u.policeNonce),
        FreshPeer(Thief, t.grid, t.thiefStart, t.copStart, t.rules, u.subGame, u.thiefEps, u.thiefNonce),
        [], [], [], false, false)
  }

  datatype Label = Acts(role: Role, choice: Choice) | Hears(role: Role, nonce: nat)

  /** The loop of a peer: act when holding the token, listen otherwise. */
  predicate CanAct(p: Peer) { p.own.outcome == Ongoing && p.own.MyTurn() }

  predicate CanHear(p: Peer, inbox: seq<Message>) { p.own.outcome == Ongoing && !p.own.MyTurn() && inbox != [] }

  /** History only: the sealed half-turn behind a message. */
  function Logged(m: Message): Entry { Entry(m.commit.payload, m.claim) }

  /** The thief stays put on the cop's cell after a police half-turn that it was
      not asked about: the replay will take this STAY for a concession. */
  predicate StaysUnasked(s: Sys, a: Action) {
    a == Go(Stay) && s.police.myStep > 0 && s.police.own.cell == s.thief.own.cell
  }

  /** One peer plays its half-turn; None when it may not, or offers an illegal
      action (the brain of an honest peer does not). */
  function ActStep(s: Sys, role: Role, ch: Choice): (r: Option<Sys>)
    requires s.Valid()
    ensures r.Some? ==> r.value.Valid()
  {
    var p := if role == Thief then s.thief else s.police;
    if !CanAct(p) then None
    else
      var played := MyHalfTurn(p, ch);
      if played.Err? then None
      else
        var (p', m) := played.value;
        var s' := s.(log := s.log + [Logged(m)]);
        if role == Thief then
          Some(s'.(thief := p', toPolice := s.toPolice + [m], misread := s.misread || StaysUnasked(s, ch.action)))
        else
          Some(s'.(police := p', toThief := s.toThief + [m]))
  }

  /** One peer takes the first message of its inbox, and may answer at once. */
  function HearStep(s: Sys, role: Role, nonce: nat): (r: Option<Sys>)
    requires s.Valid()
    ensures r.Some? ==> r.value.Valid()
  {
    var p := if role == Thief then s.thief else s.police;
    var inbox := if role == Thief then s.toThief else s.toPolice;
    if !CanHear(p, inbox) then None
    else
      var heard := TheirHalfTurn(p, inbox[0], nonce);
      if heard.Err? then Some(s.(broken := true))
      else
        var (p', answer) := heard.value;
        var sent := if answer.Some? then [answer.value] else [];
        var s' := s.(log := s.log + if answer.Some? then [Logged(answer.value)] else []);
        if role == Thief then Some(s'.(thief := p', toThief := inbox[1..], toPolice := s.toPolice + sent))
        else Some(s'.(police := p', toPolice := inbox[1..], toThief := s.toThief + sent))
  }

  function Next(s: Sys, l: Label): (r: Option<Sys>)
    requires s.Valid()
    ensures r.Some? ==> r.value.Valid()
  {
    match l
    case Acts(role, ch) => ActStep(s, role, ch)
    case Hears(role, nonce) => HearStep(s, role, nonce)
  }

  function Run(s: Sys, labels: seq<Label>): (r: Option<Sys>)
    requires s.Valid()
    ensures r.Some? ==> r.value.Valid()
    decreases labels
  {
    if labels == [] then Some(s)
    else match Next(s, labels[0])
      case None => None
      case Some(s') => Run(s', labels[1..])
  }
}
