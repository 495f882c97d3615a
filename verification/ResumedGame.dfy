/** After a crash the game goes on as if there had been none: the rival's re-send of its
    last message is either the one that was lost or one that was heard before. */
module ResumedGame {
  import opened Primitives
  import opened OwnState
  import opened Messages
  import opened Perception
  import opened HiddenTurns
  import Receiver
  import opened Protocol
  import opened StepEffects
  import opened Agreement
  import opened TurnLoop
  import opened NoisyRuns
  import opened ScriptedRuns
  import opened Resume

  // --- what is sent is heard or in flight ---------------------------------------

  /** What `role` sends in one step. */
  function Sends(s: Sys, l: Label, role: Role): seq<Message>
    requires s.Valid()
  {
    if l.role != role then []
    else if l.Acts? then
      var played := MyHalfTurn(Side(s, role), l.choice);
      if played.Ok? then [played.value.1] else []
    else if Box(s, role) == [] then []
    else
      var heard := TheirHalfTurn(Side(s, role), Box(s, role)[0], l.nonce);
      if heard.Ok? then Answered(heard.value.1) else []
  }

  /** All that `role` sends along a run. */
  function SentBy(role: Role, s: Sys, labels: seq<Label>): seq<Message>
    requires s.Valid()
    decreases labels
  {
    if labels == [] || Next(s, labels[0]).None? then []
    else Sends(s, labels[0], role) + SentBy(role, Next(s, labels[0]).value, labels[1..])
  }

  function MessagesOf(heard: seq<(Message, nat)>): (ms: seq<Message>)
    ensures |ms| == |heard| && forall i :: 0 <= i < |heard| ==> ms[i] == heard[i].0
  {
    seq(|heard|, i requires 0 <= i < |heard| => heard[i].0)
  }

  /** What `role` hears in one step. */
  function Hearing(s: Sys, l: Label, role: Role): seq<Message> {
    if l.Hears? && l.role == role && Box(s, role) != [] then [Box(s, role)[0]] else []
  }

  lemma ActConserves(s: Sys, l: Label, role: Role)
    requires s.Valid() && l.Acts? && Next(s, l).Some?
    ensures Box(Next(s, l).value, role) == Box(s, role) + Sends(s, l, role.Rival())
  {
    hide MyHalfTurn, TheirHalfTurn, Next;
    ActShape(s, l.role, l.choice);
    assert Box(s, role) + [] == Box(s, role);
  }

  lemma HearConserves(s: Sys, l: Label, role: Role)
    requires s.Valid() && l.Hears? && Next(s, l).Some? && CanHear(Side(s, l.role), Box(s, l.role))
    requires TheirHalfTurn(Side(s, l.role), Box(s, l.role)[0], l.nonce).Ok?
    ensures Box(Next(s, l).value, role)
      == (if l.role == role then Box(s, role)[1..] else Box(s, role)) + Sends(s, l, role.Rival())
  {
    hide MyHalfTurn, TheirHalfTurn, Next;
    var heard := TheirHalfTurn(Side(s, l.role), Box(s, l.role)[0], l.nonce).value;
    HearShape(s, l.role, l.nonce, heard.0, heard.1);
  }

  lemma StepConserves(u: Setup, s: Sys, l: Label, role: Role)
    requires Inv(u, s) && Next(s, l).Some?
    ensures Hearing(s, l, role) + Box(Next(s, l).value, role) == Box(s, role) + Sends(s, l, role.Rival())
  {
    hide Inv, MyHalfTurn, TheirHalfTurn, Next, Box, Side, Sends;
    InvFrame(u, s);
    StepIsLocal(u, s, l, l.role);
    if l.Acts? {
      ActConserves(s, l, role);
    } else {
      HearConserves(s, l, role);
      if l.role == role {
        HeadAndTail(Box(s, role), Sends(s, l, role.Rival()));
      }
    }
  }

  lemma HeadAndTail(box: seq<Message>, sends: seq<Message>)
    requires box != []
    ensures [box[0]] + (box[1..] + sends) == box + sends
  {
  }

  lemma RunCons(s: Sys, labels: seq<Label>)
    requires s.Valid() && labels != [] && Next(s, labels[0]).Some?
    ensures Run(s, labels) == Run(Next(s, labels[0]).value, labels[1..])
  {
    hide Next;
  }

  lemma SentCons(role: Role, s: Sys, labels: seq<Label>)
    requires s.Valid() && labels != [] && Next(s, labels[0]).Some?
    ensures SentBy(role, s, labels) == Sends(s, labels[0], role) + SentBy(role, Next(s, labels[0]).value, labels[1..])
  {
    hide Next, Sends;
  }

  lemma MessagesCons(m: Message, nonce: nat, heard: seq<(Message, nat)>)
    ensures MessagesOf([(m, nonce)] + heard) == [m] + MessagesOf(heard)
  {
  }

  /** What the first step of a run contributes to both sides of the channel. */
  lemma ChannelCons(s: Sys, labels: seq<Label>, role: Role)
    requires s.Valid() && labels != [] && Next(s, labels[0]).Some?
    ensures var l, s' := labels[0], Next(s, labels[0]).value;
      && Run(s, labels) == Run(s', labels[1..])
      && SentBy(role.Rival(), s, labels) == Sends(s, l, role.Rival()) + SentBy(role.Rival(), s', labels[1..])
      && MessagesOf(HeardBy(role, s, labels)) == Hearing(s, l, role) + MessagesOf(HeardBy(role, s', labels[1..]))
  {
    hide Next, Sends, Run, SentBy, HeardBy, MessagesOf, Box;
    RunCons(s, labels);
    SentCons(role.Rival(), s, labels);
    InputsCons(s, labels, role);
    var l, heard := labels[0], HeardBy(role, Next(s, labels[0]).value, labels[1..]);
    if l.Hears? && l.role == role && Box(s, role) != [] {
      MessagesCons(Box(s, role)[0], l.nonce, heard);
    } else {
      assert [] + MessagesOf(heard) == MessagesOf(heard);
    }
  }

  lemma QuietChannel(s: Sys, role: Role)
    requires s.Valid()
    ensures SentBy(role.Rival(), s, []) == [] && MessagesOf(HeardBy(role, s, [])) == [] && Run(s, []) == Some(s)
  {
  }

  /** Along a run nothing is lost and nothing invented: what the rival sends is what
      `role` hears, in that order, and what is still in flight. */
  lemma {:induction false} RunConserves(u: Setup, s: Sys, labels: seq<Label>, role: Role)
    requires Inv(u, s) && Run(s, labels).Some?
    ensures Box(s, role) + SentBy(role.Rival(), s, labels)
      == MessagesOf(HeardBy(role, s, labels)) + Box(Run(s, labels).value, role)
    decreases labels
  {
    hide Inv, Next, Sends, SentBy, HeardBy, MessagesOf, Hearing;
    InvFrame(u, s);
    if labels == [] {
      QuietChannel(s, role);
      assert Box(s, role) + [] == [] + Box(s, role);
    } else {
      var l, s' := labels[0], Next(s, labels[0]).value;
      NextInv(u, s, l);
      StepConserves(u, s, l, role);
      ChannelCons(s, labels, role);
      RunConserves(u, s', labels[1..], role);
      Regroup(Box(s, role), Sends(s, l, role.Rival()), SentBy(role.Rival(), s', labels[1..]),
              Hearing(s, l, role), Box(s', role), MessagesOf(HeardBy(role, s', labels[1..])),
              Box(Run(s, labels).value, role));
    }
  }

  lemma Regroup(
    box: seq<Message>, sends: seq<Message>, later: seq<Message>, hearing: seq<Message>, box': seq<Message>,
    heard: seq<Message>, end: seq<Message>)
    requires hearing + box' == box + sends && box' + later == heard + end
    ensures box + (sends + later) == (hearing + heard) + end
  {
    assert box + (sends + later) == (box + sends) + later;
    assert (hearing + box') + later == hearing + (box' + later);
    assert hearing + (heard + end) == (hearing + heard) + end;
  }

  lemma ConsConcat<T>(x: T, a: seq<T>, b: seq<T>)
    ensures [x] + (a + b) == ([x] + a) + b
  {
  }

  lemma {:induction false} HeardConcat(s: Sys, a: seq<Label>, b: seq<Label>, role: Role)
    requires s.Valid() && Run(s, a).Some?
    ensures HeardBy(role, s, a + b) == HeardBy(role, s, a) + HeardBy(role, Run(s, a).value, b)
    decreases a
  {
    hide Next, HeardBy, Box;
    if a == [] {
      assert a + b == b;
      NothingHeardBy(role, s);
      QuietChannel(s, role);
    } else {
      var s' := Next(s, a[0]).value;
      assert (a + b)[1..] == a[1..] + b && (a + b)[0] == a[0];
      RunCons(s, a);
      HeardConcat(s', a[1..], b, role);
      InputsCons(s, a, role);
      InputsCons(s, a + b, role);
      if a[0].Hears? && a[0].role == role && Box(s, role) != [] {
        ConsConcat((Box(s, role)[0], a[0].nonce), HeardBy(role, s', a[1..]), HeardBy(role, Run(s, a).value, b));
      }
    }
  }

  lemma {:induction false} HeardCount(u: Setup, s: Sys, labels: seq<Label>, role: Role)
    requires Inv(u, s) && Run(s, labels).Some?
    ensures Side(Run(s, labels).value, role).theirStep == Side(s, role).theirStep + |HeardBy(role, s, labels)|
    decreases labels
  {
    hide Inv, Next, HeardBy, MyHalfTurn, TheirHalfTurn;
    InvFrame(u, s);
    if labels != [] {
      NextInv(u, s, labels[0]);
      StepCounts(u, s, labels[0], role);
      InputsCons(s, labels, role);
      HeardCount(u, Next(s, labels[0]).value, labels[1..], role);
    } else {
      NothingHeardBy(role, s);
    }
  }

  lemma NothingHeardBy(role: Role, s: Sys)
    requires s.Valid()
    ensures HeardBy(role, s, []) == []
  {
  }

  lemma ShortBox(u: Setup, s: Sys, role: Role)
    requires Inv(u, s)
    ensures |Box(s, role)| <= 1
  {
  }

  // --- the trust is not played --------------------------------------------------

  /** The same peer but for its scent trust. */
  predicate ButForTrust(p: Peer, q: Peer) { q == p.(trust := q.trust) }

  predicate SameResult(r: Result<Peer>, r': Result<Peer>) {
    match r
    case Err(e) => r' == Err(e)
    case Ok(p) => r'.Ok? && ButForTrust(p, r'.value)
  }

  lemma ActsAlike(p: Peer, q: Peer, ch: Choice)
    requires p.Valid() && q.Valid() && ButForTrust(p, q)
    ensures match MyHalfTurn(p, ch)
      case Err(e) => MyHalfTurn(q, ch) == Err(e)
      case Ok((p', m)) => MyHalfTurn(q, ch).Ok? && ButForTrust(p', MyHalfTurn(q, ch).value.0)
  {
    hide Advanced, Serialize;
  }

  lemma ReceivesAlike(p: Peer, q: Peer, m: Message)
    requires p.Valid() && q.Valid() && ButForTrust(p, q)
    ensures match Received(p, m)
      case Err(e) => Received(q, m) == Err(e)
      case Ok(p') => Received(q, m).Ok? && ButForTrust(p', Received(q, m).value)
  {
    hide Absorbed, Observed, OutcomeOnReceipt, Live;
  }

  lemma ReceivedValid(p: Peer, m: Message)
    requires p.Valid() && Received(p, m).Ok?
    ensures Received(p, m).value.Valid()
  {
    hide Observed, Live, OutcomeOnReceipt;
  }

  lemma AnswersAlike(p: Peer, q: Peer, m: Message, nonce: nat)
    requires p.Valid() && q.Valid() && ButForTrust(p, q)
    ensures ButForTrust(TruthDuty(p, m, nonce).0, TruthDuty(q, m, nonce).0)
  {
    hide Serialize;
  }

  lemma HearsAlike(p: Peer, q: Peer, m: Message, nonce: nat)
    requires p.Valid() && q.Valid() && ButForTrust(p, q)
    ensures match TheirHalfTurn(p, m, nonce)
      case Err(e) => TheirHalfTurn(q, m, nonce) == Err(e)
      case Ok((p', answer)) => TheirHalfTurn(q, m, nonce).Ok? && ButForTrust(p', TheirHalfTurn(q, m, nonce).value.0)
  {
    hide Received, TruthDuty;
    ReceivesAlike(p, q, m);
    if Received(p, m).Ok? {
      var p1, q1 := Received(p, m).value, Received(q, m).value;
      ReceivedValid(p, m);
      ReceivedValid(q, m);
      AnswersAlike(p1, q1, m, nonce);
    }
  }

  /** Two loops that differ in the trust alone play the same game. */
  lemma {:induction false} PlaysAlike(p: Peer, q: Peer, choices: seq<Choice>, heard: seq<(Message, nat)>)
    requires p.Valid() && q.Valid() && ButForTrust(p, q)
    ensures SameResult(Play(p, choices, heard), Play(q, choices, heard))
    decreases |choices| + |heard|
  {
    hide MyHalfTurn, TheirHalfTurn;
    if p.own.outcome == Ongoing {
      if p.own.MyTurn() && choices != [] {
        ActsAlike(p, q, choices[0]);
        if MyHalfTurn(p, choices[0]).Ok? {
          PlaysAlike(MyHalfTurn(p, choices[0]).value.0, MyHalfTurn(q, choices[0]).value.0, choices[1..], heard);
        }
      } else if !p.own.MyTurn() && heard != [] {
        var (m, nonce) := heard[0];
        HearsAlike(p, q, m, nonce);
        if TheirHalfTurn(p, m, nonce).Ok? {
          PlaysAlike(TheirHalfTurn(p, m, nonce).value.0, TheirHalfTurn(q, m, nonce).value.0, choices, heard[1..]);
        }
      }
    }
  }

  // --- the re-sent message ------------------------------------------------------

  function LastOf(ms: seq<Message>): Option<Message> { if ms == [] then None else Some(ms[|ms| - 1]) }

  /** A process that has played `role` in a run: its peer, the keys it has handed over,
      and the message it sent last. */
  ghost predicate Lived(u: Setup, labels: seq<Label>, role: Role, x: Process)
    requires u.Valid() && Run(Start(u), labels).Some?
  {
    && x.peer == Side(Run(Start(u), labels).value, role) && x.opponentId == PeerGroupId(x.opponent)
    && x.inbox.consumed == HeardKeys(x.peer.theirStep)
    && x.lastSent == LastOf(SentBy(role, Start(u), labels))
  }

  lemma {:induction false} SentSnoc(role: Role, s: Sys, labels: seq<Label>, l: Label)
    requires s.Valid() && Run(s, labels).Some? && Next(Run(s, labels).value, l).Some?
    ensures Run(s, labels + [l]) == Next(Run(s, labels).value, l)
    ensures SentBy(role, s, labels + [l]) == SentBy(role, s, labels) + Sends(Run(s, labels).value, l, role)
    decreases labels
  {
    hide Next, Sends;
    if labels == [] {
      assert labels + [l] == [l] && [l][1..] == [];
    } else {
      assert (labels + [l])[1..] == labels[1..] + [l] && (labels + [l])[0] == labels[0];
      SentSnoc(role, Next(s, labels[0]).value, labels[1..], l);
    }
  }

  /** A process that remembers what it sends, as it does, goes on being one. */
  lemma LivesOn(u: Setup, labels: seq<Label>, l: Label, role: Role, x: Process, x': Process)
    requires u.Valid() && Run(Start(u), labels).Some? && Next(Run(Start(u), labels).value, l).Some?
    requires Lived(u, labels, role, x)
    requires var s := Run(Start(u), labels).value; var sent := Sends(s, l, role);
      && x'.peer == Side(Next(s, l).value, role) && x'.opponent == x.opponent && x'.opponentId == x.opponentId
      && x'.lastSent == (if sent == [] then x.lastSent else LastOf(sent))
      && x'.inbox.consumed == x.inbox.consumed
           + (if l.Hears? && l.role == role then {Receiver.Key(Receiver.TurnKind, x.peer.theirStep + 1)} else {})
    ensures Run(Start(u), labels + [l]).Some? && Lived(u, labels + [l], role, x')
  {
    hide Run, Start, Sends, SentBy, Next, Inv;
    StartEmpty(u, role);
    StartKeeps(u);
    var s := Run(Start(u), labels).value;
    RunInv(u, Start(u), labels);
    SentSnoc(role, Start(u), labels, l);
    StepCounts(u, s, l, role);
  }

  lemma StartKeeps(u: Setup)
    requires u.Valid()
    ensures Inv(u, Start(u))
  {
    StartInv(u);
  }

  /** The rival's last message is the one in flight, or else the last one heard. */
  lemma LastSentIsLostOrHeard(u: Setup, labels: seq<Label>, role: Role, rival: Process)
    requires u.Valid() && Run(Start(u), labels).Some? && Lived(u, labels, role.Rival(), rival)
    ensures var s, heard := Run(Start(u), labels).value, MessagesOf(HeardBy(role, Start(u), labels));
      rival.lastSent == if Box(s, role) != [] then Some(Box(s, role)[0]) else LastOf(heard)
  {
    hide HeardBy, SentBy, Run, Start, Frame, ThiefToMove;
    StartInv(u);
    StartEmpty(u, role);
    RunInv(u, Start(u), labels);
    RunConserves(u, Start(u), labels, role);
    ShortBox(u, Run(Start(u), labels).value, role);
    assert Box(Start(u), role) + SentBy(role.Rival(), Start(u), labels) == SentBy(role.Rival(), Start(u), labels);
  }

  lemma StartEmpty(u: Setup, role: Role)
    requires u.Valid()
    ensures Start(u).Valid() && Box(Start(u), role) == [] && Side(Start(u), role).theirStep == 0
  {
  }

  /** One message earlier in the stream. */
  function Shifted(places: seq<nat>): (r: seq<nat>)
    ensures |r| == |places| && forall i :: 0 <= i < |places| ==> r[i] == places[i] + 1
  {
    seq(|places|, i requires 0 <= i < |places| => places[i] + 1)
  }

  /** A copy in front of a stream is noise before its first message. */
  lemma CopyInFront(me: Role, heard: seq<(Message, nat)>, first: nat, m: Message, rest: seq<Message>, places: seq<nat>)
    requires Carries(me, heard, first, rest, places) && EchoOrCopy(me, heard, first, m)
    ensures Carries(me, heard, first, [m] + rest, Shifted(places))
  {
    hide EchoOrCopy;
    var raw := [m] + rest;
    forall i | first <= i < |heard| ensures CarriesAt(me, heard, first, raw, Shifted(places), i) {
      assert CarriesAt(me, heard, first, rest, places, i);
      var k := i - first;
      forall j | NoiseStart(Shifted(places), k) <= j < Shifted(places)[k] ensures EchoOrCopy(me, heard, i, raw[j]) {
        if j > 0 {
          assert EchoOrCopy(me, heard, i, rest[j - 1]);
        }
      }
    }
  }

  /** The awaited message in front of a stream of what comes after it. */
  lemma LostInFront(me: Role, heard: seq<(Message, nat)>, first: nat, rest: seq<Message>, places: seq<nat>)
    requires first < |heard| && Carries(me, heard, first + 1, rest, places)
    ensures Carries(me, heard, first, [heard[first].0] + rest, [0] + Shifted(places))
  {
    hide EchoOrCopy;
    var raw, places' := [heard[first].0] + rest, [0] + Shifted(places);
    forall i | first <= i < |heard| ensures CarriesAt(me, heard, first, raw, places', i) {
      if i > first {
        assert CarriesAt(me, heard, first + 1, rest, places, i);
        var k := i - first;
        forall j | NoiseStart(places', k) <= j < places'[k] ensures EchoOrCopy(me, heard, i, raw[j]) {
          assert EchoOrCopy(me, heard, i, rest[j - 1]);
        }
      }
    }
  }

  /** The stream that reaches a resumed peer: the rival's re-send, if it has sent
      anything, and then `rest`. */
  function AfterResend(rival: Process, rest: seq<Message>): seq<Message> {
    (if rival.lastSent.Some? then [rival.lastSent.value] else []) + rest
  }

  /** The re-send supplies the message that was lost, or is noise. */
  lemma ResendFits(
    me: Role, heard: seq<(Message, nat)>, first: nat, lost: Option<Message>, rival: Process,
    rest: seq<Message>, places: seq<nat>)
    returns (places': seq<nat>)
    requires first <= |heard|
    requires rival.lastSent == if lost.Some? then lost else LastOf(MessagesOf(heard[..first]))
    requires lost.Some? && first < |heard| ==> heard[first].0 == lost.value
    requires Carries(me, heard, if lost.Some? && first < |heard| then first + 1 else first, rest, places)
    ensures Carries(me, heard, first, AfterResend(rival, rest), places')
  {
    hide Carries;
    if lost.Some? && first < |heard| {
      LostInFront(me, heard, first, rest, places);
      places' := [0] + Shifted(places);
    } else if first == |heard| {
      places' := [];
      NothingCarried(me, heard, AfterResend(rival, rest));
    } else if first > 0 {
      assert heard[first - 1].0 == MessagesOf(heard[..first])[first - 1] == rival.lastSent.value;
      assert EchoOrCopy(me, heard, first, rival.lastSent.value);
      CopyInFront(me, heard, first, rival.lastSent.value, rest, places);
      places' := Shifted(places);
    } else {
      assert AfterResend(rival, rest) == rest;
      places' := places;
    }
  }

  lemma NothingCarried(me: Role, heard: seq<(Message, nat)>, raw: seq<Message>)
    ensures Carries(me, heard, |heard|, raw, [])
  {
  }

  /** The message in flight is the next one heard. */
  lemma NextHeardIsInFlight(u: Setup, s: Sys, labels: seq<Label>, role: Role)
    requires Inv(u, s) && Run(s, labels).Some? && Box(s, role) != [] && HeardBy(role, s, labels) != []
    ensures HeardBy(role, s, labels)[0].0 == Box(s, role)[0]
  {
    hide Inv, HeardBy, SentBy, Run;
    InvFrame(u, s);
    RunConserves(u, s, labels, role);
    var heard := HeardBy(role, s, labels);
    assert (Box(s, role) + SentBy(role.Rival(), s, labels))[0] == Box(s, role)[0];
    assert (MessagesOf(heard) + Box(Run(s, labels).value, role))[0] == heard[0].0;
  }

  lemma OwnRole(u: Setup, s: Sys, role: Role)
    requires Inv(u, s)
    ensures Side(s, role).own.role == role
  {
  }

  /** What a peer has heard when it crashes and what it will hear after. */
  lemma HeardInTwo(u: Setup, before: seq<Label>, after: seq<Label>, role: Role)
    requires u.Valid() && Run(Start(u), before).Some? && Run(Run(Start(u), before).value, after).Some?
    ensures var s, all := Run(Start(u), before).value, HeardBy(role, Start(u), before + after);
      && Inv(u, s) && Run(Start(u), before + after).Some? && Side(s, role).own.role == role
      && Side(s, role).theirStep == |HeardBy(role, Start(u), before)| <= |all|
      && all[..Side(s, role).theirStep] == HeardBy(role, Start(u), before)
      && all[Side(s, role).theirStep..] == HeardBy(role, s, after)
      && Numbered(role, all, 0)
      && (Box(s, role) != [] && Side(s, role).theirStep < |all| ==> all[Side(s, role).theirStep].0 == Box(s, role)[0])
  {
    hide HeardBy, Run, Start, Numbered, Frame, ThiefToMove, Box;
    StartInv(u);
    StartEmpty(u, role);
    RunInv(u, Start(u), before);
    var s := Run(Start(u), before).value;
    OwnRole(u, s, role);
    HeardCount(u, Start(u), before, role);
    HeardConcat(Start(u), before, after, role);
    RunConcat(Start(u), before, after);
    HeardNumbered(u, Start(u), before + after, role);
    if Box(s, role) != [] && HeardBy(role, s, after) != [] {
      NextHeardIsInFlight(u, s, after, role);
    }
  }

  /** The two cases of the re-send in a run. */
  lemma ResendInRun(
    u: Setup, before: seq<Label>, after: seq<Label>, role: Role, rival: Process, rest: seq<Message>, places: seq<nat>)
    returns (places': seq<nat>)
    requires u.Valid() && Run(Start(u), before).Some? && Run(Run(Start(u), before).value, after).Some?
    requires Lived(u, before, role.Rival(), rival) && CarriesAfter(u, before, after, role, rest, places)
    ensures var s := Run(Start(u), before).value;
      Carries(role, HeardBy(role, Start(u), before + after), Side(s, role).theirStep, AfterResend(rival, rest), places')
  {
    hide HeardBy, Run, Start, Carries, Lived, Box;
    StartEmpty(u, role);
    var s, all := Run(Start(u), before).value, HeardBy(role, Start(u), before + after);
    HeardInTwo(u, before, after, role);
    LastSentIsLostOrHeard(u, before, role, rival);
    var lost := if Box(s, role) != [] then Some(Box(s, role)[0]) else None;
    places' := ResendFits(role, all, Side(s, role).theirStep, lost, rival, rest, places);
  }

  /** `rest` carries what `role` hears after the crash, but for a message that was in
      flight at the crash: that one need not come again by itself. */
  ghost predicate CarriesAfter(
    u: Setup, before: seq<Label>, after: seq<Label>, role: Role, rest: seq<Message>, places: seq<nat>)
    requires u.Valid() && Run(Start(u), before).Some?
  {
    var s, all := Run(Start(u), before).value, HeardBy(role, Start(u), before + after);
    var first := Side(s, role).theirStep;
    Carries(role, all, if Box(s, role) != [] && first < |all| then first + 1 else first, rest, places)
  }

  /** A peer that goes on from there with what its receiver has handed over, over the
      rival's re-send and `rest`, ends as `role` does in the run, but for the trust. */
  ghost predicate EndsTheSame(
    u: Setup, before: seq<Label>, after: seq<Label>, role: Role, y: Peer, consumed: set<Receiver.Key>, rival: Process,
    cap: nat, stored: map<int, int>, rest: seq<Message>)
    requires u.Valid() && Run(Start(u), before).Some? && Run(Run(Start(u), before).value, after).Some? && y.Valid()
  {
    var s := Run(Start(u), before).value;
    SameResult(
      Ok(Side(Run(s, after).value, role)),
      NoisyPlay(cap, stored, y, Ear(consumed, map[], 0), ChoicesOf(role, after), AfterResend(rival, rest),
                Nonces(HeardBy(role, s, after))))
  }

  /** The game after a crash.  A process that crashes at any open point of an honest run
      and is rearmed from its own snapshot plays that run to the same end, but for its
      trust, when the rival re-sends its last message: whether that message was lost or
      had been heard, and whatever else comes again beside it. */
  lemma ResumedGameIsTheSame(
    u: Setup, before: seq<Label>, after: seq<Label>, role: Role, x: Process, restarted: Process, rival: Process,
    turn: nat, cap: nat, stored: map<int, int>, rest: seq<Message>, places: seq<nat>)
    requires u.Valid() && Run(Start(u), before).Some? && Run(Run(Start(u), before).value, after).Some?
    requires Lived(u, before, role, x) && Lived(u, before, role.Rival(), rival)
    requires x.peer.own.outcome == Ongoing && FreshFor(x.peer, restarted.peer)
    requires CarriesAfter(u, before, after, role, rest, places)
    ensures x.peer.Valid()
    ensures var r := Rearmed(restarted, BuildSnapshot(x, turn));
      && r.Ok? && r.value.1 == turn && r.value.0.lastSent == x.lastSent && r.value.0.peer.Valid()
      && EndsTheSame(u, before, after, role, r.value.0.peer, r.value.0.inbox.consumed, rival, cap, stored, rest)
  {
    hide Run, Start, CarriesAfter, Rearmed, BuildSnapshot, FreshFor, EndsTheSame;
    CrashResume(u, before, role, x, restarted, turn);
    SurvivorIsValid(x, restarted);
    SurvivorPlaysOn(u, before, after, role, Survivor(x, restarted).peer, rival, cap, stored, rest, places);
  }

  /** The same for the peer alone. */
  lemma SurvivorPlaysOn(
    u: Setup, before: seq<Label>, after: seq<Label>, role: Role, y: Peer, rival: Process,
    cap: nat, stored: map<int, int>, rest: seq<Message>, places: seq<nat>)
    requires u.Valid() && Run(Start(u), before).Some? && Run(Run(Start(u), before).value, after).Some?
    requires Lived(u, before, role.Rival(), rival) && CarriesAfter(u, before, after, role, rest, places)
    requires y.Valid() && ButForTrust(Side(Run(Start(u), before).value, role), y)
    ensures EndsTheSame(u, before, after, role, y, HeardKeys(y.theirStep), rival, cap, stored, rest)
  {
    hide HeardBy, Run, Start, Carries, CarriesAfter, Lived, NoisyPlay, Play, Numbered, Inv, Nonces, AfterResend;
    StartEmpty(u, role);
    HeardInTwo(u, before, after, role);
    var s, all := Run(Start(u), before).value, HeardBy(role, Start(u), before + after);
    InvFrame(u, s);
    var places' := ResendInRun(u, before, after, role, rival, rest, places);
    PlaysOnThroughNoise(cap, stored, y, ChoicesOf(role, after), all, AfterResend(rival, rest), places');
    RunIsTwoLoops(u, s, after, role);
    PlaysAlike(Side(s, role), y, ChoicesOf(role, after), HeardBy(role, s, after));
  }

  lemma SurvivorIsValid(x: Process, restarted: Process)
    requires x.peer.Valid() && FreshFor(x.peer, restarted.peer)
    ensures Survivor(x, restarted).peer.Valid() && ButForTrust(x.peer, Survivor(x, restarted).peer)
  {
  }

  lemma PlaysOnThroughNoise(
    cap: nat, stored: map<int, int>, p: Peer, choices: seq<Choice>, all: seq<(Message, nat)>,
    raw: seq<Message>, places: seq<nat>)
    requires p.Valid() && p.theirStep <= |all| && Numbered(p.own.role, all, 0)
    requires Carries(p.own.role, all, p.theirStep, raw, places)
    ensures NoisyPlay(cap, stored, p, Ear(HeardKeys(p.theirStep), map[], 0), choices, raw, Nonces(all[p.theirStep..]))
      == Play(p, choices, all[p.theirStep..])
  {
    hide Carries, Numbered, NoisyPlay, Play;
    CarriesLength(p.own.role, all, p.theirStep, raw, places);
    NoisyIsPlay(cap, stored, p, choices, all, p.theirStep, raw, places, p.theirStep, 0);
  }
}
