/** The runtime around the handlers: how raw messages are keyed for the hardened
    receiver, and the loop that alternates half-turns until the game is over. */
module TurnLoop {
  import opened Primitives
  import opened Scent
  import opened OwnState
  import opened Messages
  import opened Perception
  import opened HiddenTurns
  import Receiver
  import opened Protocol
  import opened Agreement

  // --- keying raw messages ----------------------------------------------------

  /** The step a message is filed under: a caught final answers the current
      expectation, whatever number its sender gave it. */
  function StepFor(expected: nat, m: Message): int {
    if m.Caught() && expected != 0 then expected else m.step
  }

  function FirstForeign(me: Role, raw: seq<Message>): nat {
    if raw == [] || raw[0].sender != me then 0 else 1 + FirstForeign(me, raw[1..])
  }

  lemma {:induction false} FirstForeignBounds(me: Role, raw: seq<Message>)
    ensures FirstForeign(me, raw) <= |raw|
    ensures forall i :: 0 <= i < FirstForeign(me, raw) ==> raw[i].sender == me
    ensures FirstForeign(me, raw) < |raw| ==> raw[FirstForeign(me, raw)].sender != me
  {
    if raw != [] && raw[0].sender == me {
      FirstForeignBounds(me, raw[1..]);
    }
  }

  /** _wait_turn: own-role echoes are noise; the first foreign message is filed. */
  method WaitTurn(me: Role, expected: nat, raw: seq<Message>)
    returns (found: Option<(int, Message)>, rest: seq<Message>)
    ensures var k := FirstForeign(me, raw);
      if k < |raw| then found == Some((StepFor(expected, raw[k]), raw[k])) && rest == raw[k + 1..]
      else found == None && rest == []
  {
    FirstForeignBounds(me, raw);
    var k := 0;
    while k < |raw| && raw[k].sender == me
      invariant 0 <= k <= FirstForeign(me, raw) <= |raw|
      invariant FirstForeign(me, raw[k..]) == FirstForeign(me, raw) - k
    {
      k := k + 1;
    }
    if k == |raw| {
      return None, [];
    }
    return Some((StepFor(expected, raw[k]), raw[k])), raw[k + 1..];
  }

  /** What the receiver sees while it expects step `e`: the foreign messages, filed;
      a packet's body is the place of its message. */
  function Filed(me: Role, e: nat, raw: seq<Message>, from: nat): (ps: seq<Receiver.Packet>)
    requires from <= |raw|
    decreases |raw| - from
  {
    if from == |raw| then []
    else if raw[from].sender == me then Filed(me, e, raw, from + 1)
    else
      var key := Receiver.Key(Receiver.TurnKind, StepFor(e, raw[from]));
      [Receiver.Packet(key, 0, from)] + Filed(me, e, raw, from + 1)
  }

  lemma FiledCons(me: Role, e: nat, raw: seq<Message>, from: nat)
    requires from < |raw|
    ensures var ps, rest := Filed(me, e, raw, from), Filed(me, e, raw, from + 1);
      var key := Receiver.Key(Receiver.TurnKind, StepFor(e, raw[from]));
      if raw[from].sender == me then ps == rest
      else ps != [] && ps[1..] == rest && ps[0] == Receiver.Packet(key, 0, from)
  {
  }

  function HeardKeys(n: nat): set<Receiver.Key> { set k | 1 <= k <= n :: Receiver.Key(Receiver.TurnKind, k) }

  /** Noise while step `n + 1` is awaited: an echo of our own message, or another copy
      of a message already heard. */
  predicate Noise(me: Role, n: nat, m: Message) {
    m.sender == me || (!m.Caught() && 1 <= m.step <= n)
  }

  lemma NoiseIsHeard(me: Role, n: nat, m: Message)
    requires Noise(me, n, m) && m.sender != me
    ensures Receiver.Key(Receiver.TurnKind, StepFor(n + 1, m)) in HeardKeys(n)
  {
  }

  lemma AwaitedKey(me: Role, n: nat, m: Message)
    requires m.Caught() || m.step == n + 1
    ensures StepFor(n + 1, m) == n + 1 && Receiver.Key(Receiver.TurnKind, n + 1) !in HeardKeys(n)
    ensures HeardKeys(n) + {Receiver.Key(Receiver.TurnKind, n + 1)} == HeardKeys(n + 1)
  {
  }

  /** The awaited message comes through any amount of noise, and all that stays behind
      is what came after it. */
  lemma {:induction false} ThroughNoise(
    cap: nat, stored: map<int, int>, me: Role, n: nat, raw: seq<Message>, from: nat, place: nat)
    requires from <= place < |raw| && forall i :: from <= i < place ==> Noise(me, n, raw[i])
    requires raw[place].sender != me && (raw[place].Caught() || raw[place].step == n + 1)
    ensures var e := Receiver.Key(Receiver.TurnKind, n + 1);
      Receiver.Next(cap, stored, Receiver.Inbox(HeardKeys(n), map[], Filed(me, n + 1, raw, from)), e) ==
        (Ok(Receiver.Packet(e, 0, place)), Receiver.Inbox(HeardKeys(n + 1), map[], Filed(me, n + 1, raw, place + 1)))
    decreases place - from
  {
    hide Filed, Receiver.Next, StepFor;
    var e, filed := Receiver.Key(Receiver.TurnKind, n + 1), Filed(me, n + 1, raw, from);
    FiledCons(me, n + 1, raw, from);
    if from < place {
      ThroughNoise(cap, stored, me, n, raw, from + 1, place);
      if raw[from].sender != me {
        NoiseIsHeard(me, n, raw[from]);
        Receiver.NextReads(cap, stored, Receiver.Inbox(HeardKeys(n), map[], filed), e);
      }
    } else {
      AwaitedKey(me, n, raw[place]);
      Receiver.NextReads(cap, stored, Receiver.Inbox(HeardKeys(n), map[], filed), e);
    }
  }

  function Side(s: Sys, role: Role): Peer { if role == Thief then s.thief else s.police }

  function Box(s: Sys, role: Role): seq<Message> { if role == Thief then s.toThief else s.toPolice }

  /** Once heard, a message is itself only noise while the game goes on. */
  lemma HeardIsNoise(u: Setup, s: Sys, role: Role, nonce: nat)
    requires Inv(u, s) && Box(s, role) != [] && Next(s, Hears(role, nonce)).Some?
    ensures var p' := Side(Next(s, Hears(role, nonce)).value, role);
      p'.own.outcome == Ongoing ==> Noise(role, p'.theirStep, Box(s, role)[0])
  {
    var s', m, closing := NextStepped(u, s, Hears(role, nonce));
  }

  /** The receiver hands over the message in flight, whatever noise comes before it. */
  ghost predicate ComesThrough(cap: nat, stored: map<int, int>, role: Role, n: nat, noise: seq<Message>, m: Message) {
    var e := Receiver.Key(Receiver.TurnKind, n + 1);
    Receiver.Next(cap, stored, Receiver.Inbox(HeardKeys(n), map[], Filed(role, n + 1, noise + [m], 0)), e).0
      == Ok(Receiver.Packet(e, 0, |noise|))
  }

  lemma NoiseThenHead(cap: nat, stored: map<int, int>, role: Role, n: nat, noise: seq<Message>, m: Message)
    requires (forall i :: 0 <= i < |noise| ==> Noise(role, n, noise[i])) && m.sender != role && m.step == n + 1
    ensures ComesThrough(cap, stored, role, n, noise, m)
  {
    var raw := noise + [m];
    assert forall i :: 0 <= i < |raw| - 1 ==> raw[i] == noise[i];
    ThroughNoise(cap, stored, role, n, raw, 0, |noise|);
  }

  lemma HeadNumbered(u: Setup, s: Sys, role: Role)
    requires Inv(u, s) && Box(s, role) != []
    ensures Box(s, role)[0].sender != role && Box(s, role)[0].step == Side(s, role).theirStep + 1
  {
  }

  /** In every state of every honest run the message in flight is handed to its
      receiver through any echoes and re-deliveries of what was already heard. */
  lemma DeliveredThroughNoise(
    u: Setup, labels: seq<Label>, cap: nat, stored: map<int, int>, role: Role, noise: seq<Message>)
    requires u.Valid() && Run(Start(u), labels).Some? && Box(Run(Start(u), labels).value, role) != []
    requires forall i :: 0 <= i < |noise| ==> Noise(role, Side(Run(Start(u), labels).value, role).theirStep, noise[i])
    ensures var s := Run(Start(u), labels).value;
      ComesThrough(cap, stored, role, Side(s, role).theirStep, noise, Box(s, role)[0])
  {
    StartInv(u);
    RunInv(u, Start(u), labels);
    var s := Run(Start(u), labels).value;
    HeadNumbered(u, s, role);
    NoiseThenHead(cap, stored, role, Side(s, role).theirStep, noise, Box(s, role)[0]);
  }

  // --- the loop ---------------------------------------------------------------

  /** The play loop of one peer over the choices its brain will make and the messages
      its receiver will hand over; it stops when the game is over, when an input is
      missing, or at a refusal. */
  function Play(p: Peer, choices: seq<Choice>, heard: seq<(Message, nat)>): (r: Result<Peer>)
    requires p.Valid()
    ensures r.Ok? ==> r.value.Valid()
    decreases |choices| + |heard|
  {
    if p.own.outcome != Ongoing then Ok(p)
    else if p.own.MyTurn() then
      if choices == [] then Ok(p)
      else
        var played := MyHalfTurn(p, choices[0]);
        if played.Err? then Err(played.error) else Play(played.value.0, choices[1..], heard)
    else if heard == [] then Ok(p)
    else
      var taken := TheirHalfTurn(p, heard[0].0, heard[0].1);
      if taken.Err? then Err(taken.error) else Play(taken.value.0, choices, heard[1..])
  }

  /** play: alternate by the turn token until the outcome stands; a refusal is a
      technical loss, a missing message a missed deadline. */
  method PlayGame(rt: HiddenRuntime, choices: seq<Choice>, heard: seq<(Message, nat)>) returns (r: Result<()>)
    requires rt.Valid()
    modifies rt, rt.own.Repr
    ensures rt.Valid()
    ensures match Play(old(rt.View()), choices, heard)
      case Err(e) => r == Err(e) && rt.own.outcome == TechnicalLoss
      case Ok(p) =>
        if p.own.outcome == Ongoing then r == Err(Timeout) && rt.View() == p.(own := p.own.(outcome := TechnicalLoss))
        else r == Ok(()) && rt.View() == p
  {
    hide MyHalfTurn, TheirHalfTurn;
    var i, j := 0, 0;
    while rt.own.outcome == Ongoing
      invariant 0 <= i <= |choices| && 0 <= j <= |heard| && rt.Valid()
      invariant Play(rt.View(), choices[i..], heard[j..]) == Play(old(rt.View()), choices, heard)
      decreases |choices| - i + |heard| - j
    {
      if rt.own.token == rt.own.role {
        if i == |choices| {
          rt.own.outcome := TechnicalLoss;
          return Err(Timeout);
        }
        assert choices[i..][0] == choices[i] && choices[i..][1..] == choices[i + 1..];
        var sent := rt.TakeMyHalfTurn(choices[i]);
        if sent.Err? {
          rt.own.outcome := TechnicalLoss;
          return Err(sent.error);
        }
        i := i + 1;
      } else {
        if j == |heard| {
          rt.own.outcome := TechnicalLoss;
          return Err(Timeout);
        }
        assert heard[j..][0] == heard[j] && heard[j..][1..] == heard[j + 1..];
        var taken := rt.TakeTheirHalfTurn(heard[j].0, heard[j].1);
        if taken.Err? {
          rt.own.outcome := TechnicalLoss;
          return Err(taken.error);
        }
        j := j + 1;
      }
    }
    return Ok(());
  }

  /** The wall quota binds live: whatever messages a peer is sent, by whomever, and
      whatever its brain decides, no more walls than the quota ever enter its board. */
  lemma AbsorbKeepsQuota(o: Own, m: Message)
    requires o.Valid() && |o.walls| <= o.rules.maxBarriers && Absorbed(o, m).Ok?
    ensures |Absorbed(o, m).value.walls| <= o.rules.maxBarriers && Absorbed(o, m).value.rules == o.rules
  {
    hide Updated, Dense;
  }

  lemma ActKeepsQuota(p: Peer, ch: Choice)
    requires p.Valid() && |p.own.walls| <= p.own.rules.maxBarriers && MyHalfTurn(p, ch).Ok?
    ensures var o := MyHalfTurn(p, ch).value.0.own; |o.walls| <= p.own.rules.maxBarriers && o.rules == p.own.rules
  {
    hide Updated, Serialize;
  }

  lemma HearKeepsQuota(p: Peer, m: Message, nonce: nat)
    requires p.Valid() && |p.own.walls| <= p.own.rules.maxBarriers && TheirHalfTurn(p, m, nonce).Ok?
    ensures var o := TheirHalfTurn(p, m, nonce).value.0.own;
      |o.walls| <= p.own.rules.maxBarriers && o.rules == p.own.rules
  {
    hide Absorbed, Observed, Serialize, Live;
    AbsorbKeepsQuota(p.own, m);
  }

  lemma {:induction false} QuotaAlwaysHolds(p: Peer, choices: seq<Choice>, heard: seq<(Message, nat)>)
    requires p.Valid() && |p.own.walls| <= p.own.rules.maxBarriers && Play(p, choices, heard).Ok?
    ensures |Play(p, choices, heard).value.own.walls| <= p.own.rules.maxBarriers
    decreases |choices| + |heard|
  {
    hide MyHalfTurn, TheirHalfTurn;
    if p.own.outcome == Ongoing {
      if p.own.MyTurn() && choices != [] {
        ActKeepsQuota(p, choices[0]);
        QuotaAlwaysHolds(MyHalfTurn(p, choices[0]).value.0, choices[1..], heard);
      } else if !p.own.MyTurn() && heard != [] {
        HearKeepsQuota(p, heard[0].0, heard[0].1);
        QuotaAlwaysHolds(TheirHalfTurn(p, heard[0].0, heard[0].1).value.0, choices, heard[1..]);
      }
    }
  }

  // --- the system is two loops --------------------------------------------------

  function ChoicesOf(role: Role, labels: seq<Label>): seq<Choice> {
    if labels == [] then []
    else (if labels[0].Acts? && labels[0].role == role then [labels[0].choice] else []) + ChoicesOf(role, labels[1..])
  }

  /** What a peer hears along a run. */
  function HeardBy(role: Role, s: Sys, labels: seq<Label>): seq<(Message, nat)>
    requires s.Valid()
    decreases labels
  {
    if labels == [] || Next(s, labels[0]).None? then []
    else
      var l := labels[0];
      (if l.Hears? && l.role == role && Box(s, role) != [] then [(Box(s, role)[0], l.nonce)] else [])
      + HeardBy(role, Next(s, l).value, labels[1..])
  }

  /** A step is one round of the loop of the peer it names, and leaves the other alone. */
  lemma StepIsLocal(u: Setup, s: Sys, l: Label, role: Role)
    requires Inv(u, s) && Next(s, l).Some?
    ensures var p, p' := Side(s, role), Side(Next(s, l).value, role);
      if l.role != role then p' == p
      else if l.Acts? then
        p.own.outcome == Ongoing && p.own.MyTurn() && MyHalfTurn(p, l.choice).Ok?
          && MyHalfTurn(p, l.choice).value.0 == p'
      else
        && p.own.outcome == Ongoing && !p.own.MyTurn() && Box(s, role) != []
        && TheirHalfTurn(p, Box(s, role)[0], l.nonce).Ok? && TheirHalfTurn(p, Box(s, role)[0], l.nonce).value.0 == p'
  {
    NextInv(u, s, l);
  }

  lemma PlayActs(p: Peer, p': Peer, choice: Choice, choices: seq<Choice>, heard: seq<(Message, nat)>)
    requires p.Valid() && p.own.outcome == Ongoing && p.own.MyTurn()
    requires MyHalfTurn(p, choice).Ok? && MyHalfTurn(p, choice).value.0 == p'
    ensures Play(p, [choice] + choices, heard) == Play(p', choices, heard)
  {
    assert ([choice] + choices)[1..] == choices;
  }

  lemma PlayHears(p: Peer, p': Peer, m: Message, nonce: nat, choices: seq<Choice>, heard: seq<(Message, nat)>)
    requires p.Valid() && p.own.outcome == Ongoing && !p.own.MyTurn()
    requires TheirHalfTurn(p, m, nonce).Ok? && TheirHalfTurn(p, m, nonce).value.0 == p'
    ensures Play(p, choices, [(m, nonce)] + heard) == Play(p', choices, heard)
  {
    assert ([(m, nonce)] + heard)[1..] == heard;
  }

  /** The first step of a run is one round of each peer's loop, or none. */
  lemma OneRound(u: Setup, s: Sys, labels: seq<Label>, role: Role)
    requires Inv(u, s) && labels != [] && Next(s, labels[0]).Some?
    ensures var s' := Next(s, labels[0]).value;
      Play(Side(s, role), ChoicesOf(role, labels), HeardBy(role, s, labels))
        == Play(Side(s', role), ChoicesOf(role, labels[1..]), HeardBy(role, s', labels[1..]))
  {
    var l, s' := labels[0], Next(s, labels[0]).value;
    StepIsLocal(u, s, l, role);
    InputsCons(s, labels, role);
    var choices, heard := ChoicesOf(role, labels[1..]), HeardBy(role, s', labels[1..]);
    if l.role == role {
      if l.Acts? {
        PlayActs(Side(s, role), Side(s', role), l.choice, choices, heard);
      } else {
        PlayHears(Side(s, role), Side(s', role), Box(s, role)[0], l.nonce, choices, heard);
      }
    }
  }

  /** What the first step of a run contributes to a peer's inputs. */
  lemma InputsCons(s: Sys, labels: seq<Label>, role: Role)
    requires s.Valid() && labels != [] && Next(s, labels[0]).Some?
    ensures var l, s' := labels[0], Next(s, labels[0]).value;
      var choices, heard := ChoicesOf(role, labels[1..]), HeardBy(role, s', labels[1..]);
      && ChoicesOf(role, labels) == (if l.Acts? && l.role == role then [l.choice] + choices else choices)
      && HeardBy(role, s, labels) ==
           (if l.Hears? && l.role == role && Box(s, role) != [] then [(Box(s, role)[0], l.nonce)] + heard else heard)
  {
    var heard := HeardBy(role, Next(s, labels[0]).value, labels[1..]);
    assert [] + heard == heard && [] + ChoicesOf(role, labels[1..]) == ChoicesOf(role, labels[1..]);
  }

  /** In every honest run each peer's state is what its own loop computes from its own
      choices and the messages it hears: the transition system is two play loops. */
  lemma {:induction false} RunIsTwoLoops(u: Setup, s: Sys, labels: seq<Label>, role: Role)
    requires Inv(u, s) && Run(s, labels).Some?
    ensures Play(Side(s, role), ChoicesOf(role, labels), HeardBy(role, s, labels))
        == Ok(Side(Run(s, labels).value, role))
    decreases labels
  {
    if labels != [] {
      var l := labels[0];
      NextInv(u, s, l);
      RunIsTwoLoops(u, Next(s, l).value, labels[1..], role);
      OneRound(u, s, labels, role);
    }
  }
}
