/** Whole runs over a noisy channel: each peer reads a raw stream of its own echoes and
    re-delivered messages through the hardened receiver, and plays the same game. */
module NoisyRuns {
  import opened Primitives
  import opened Messages
  import opened HiddenTurns
  import Receiver
  import opened Protocol
  import opened Agreement
  import opened TurnLoop

  /** Every packet stands for a place of the raw stream. */
  predicate Placed(x: Receiver.Inbox, n: nat) {
    && (forall i :: 0 <= i < |x.arrivals| ==> 0 <= x.arrivals[i].body < n)
    && forall k :: k in x.pending ==> 0 <= x.pending[k].body < n
  }

  lemma {:induction false} NextPlaced(cap: nat, stored: map<int, int>, x: Receiver.Inbox, e: Receiver.Key, n: nat)
    requires Placed(x, n)
    ensures var (r, y) := Receiver.Next(cap, stored, x, e); Placed(y, n) && (r.Ok? ==> 0 <= r.value.body < n)
    decreases |x.arrivals|, if e in x.pending then 1 else 0
  {
    if e in x.pending || x.arrivals != [] {
      var m := if e in x.pending then x.pending[e] else x.arrivals[0];
      var y := if e in x.pending then x.(pending := x.pending - {e}) else x.(arrivals := x.arrivals[1..]);
      if m.key in y.consumed {
        if !Receiver.Conflicting(stored, m) {
          NextPlaced(cap, stored, y, e, n);
        }
      } else if m.key != e && |y.pending| < cap {
        NextPlaced(cap, stored, y.(pending := y.pending[m.key := m]), e, n);
      }
    }
  }

  lemma FiledNothing(me: Role, e: nat, raw: seq<Message>)
    ensures Filed(me, e, raw, |raw|) == []
  {
  }

  lemma {:induction false} FiledPlaced(me: Role, e: nat, raw: seq<Message>, from: nat)
    requires from <= |raw|
    ensures var ps := Filed(me, e, raw, from);
      && (forall i :: 0 <= i < |ps| ==> from <= ps[i].body < |raw|)
      && (ps == [] ==> forall k :: from <= k < |raw| ==> raw[k].sender == me)
      && (ps != [] ==> raw[ps[0].body].sender != me && forall k :: from <= k < ps[0].body ==> raw[k].sender == me)
    decreases |raw| - from
  {
    hide Filed;
    if from == |raw| {
      FiledNothing(me, e, raw);
    } else {
      FiledCons(me, e, raw, from);
      FiledPlaced(me, e, raw, from + 1);
    }
  }

  /** What one peer's receiver holds between two messages: the keys it has handed over,
      its buffer, and how far it has read. */
  datatype Ear = Ear(consumed: set<Receiver.Key>, pending: map<Receiver.Key, Receiver.Packet>, at: nat) {
    predicate In(n: nat) { at <= n && forall k :: k in pending ==> 0 <= pending[k].body < n }
  }

  /** Wait for the rival's step `n + 1`: the place of the message handed over. */
  function Listen(cap: nat, stored: map<int, int>, me: Role, n: nat, ear: Ear, raw: seq<Message>)
    : (r: (Result<nat>, Ear))
    requires ear.In(|raw|)
    ensures r.1.In(|raw|) && (r.0.Ok? ==> r.0.value < |raw|)
  {
    var e := Receiver.Key(Receiver.TurnKind, n + 1);
    FiledPlaced(me, n + 1, raw, ear.at);
    var x := Receiver.Inbox(ear.consumed, ear.pending, Filed(me, n + 1, raw, ear.at));
    NextPlaced(cap, stored, x, e, |raw|);
    var (got, y) := Receiver.Next(cap, stored, x, e);
    (if got.Ok? then Ok(got.value.body) else Err(got.error),
     Ear(y.consumed, y.pending, if y.arrivals == [] then |raw| else y.arrivals[0].body))
  }

  /** The play loop of one peer over its choices and the raw stream that reaches it;
      `nonces` are those it draws when it hears a message. */
  function NoisyPlay(
    cap: nat, stored: map<int, int>, p: Peer, ear: Ear, choices: seq<Choice>, raw: seq<Message>, nonces: seq<nat>)
    : Result<Peer>
    requires p.Valid() && ear.In(|raw|)
    decreases |choices| + |nonces|
  {
    if p.own.outcome != Ongoing then Ok(p)
    else if p.own.MyTurn() then
      if choices == [] then Ok(p)
      else
        var played := MyHalfTurn(p, choices[0]);
        if played.Err? then Err(played.error)
        else NoisyPlay(cap, stored, played.value.0, ear, choices[1..], raw, nonces)
    else if nonces == [] then Ok(p)
    else
      var (got, ear') := Listen(cap, stored, p.own.role, p.theirStep, ear, raw);
      if got.Err? then Err(got.error)
      else
        var taken := TheirHalfTurn(p, raw[got.value], nonces[0]);
        if taken.Err? then Err(taken.error) else NoisyPlay(cap, stored, taken.value.0, ear', choices, raw, nonces[1..])
  }

  function Nonces(heard: seq<(Message, nat)>): (ns: seq<nat>)
    ensures |ns| == |heard|
  {
    if heard == [] then [] else [heard[0].1] + Nonces(heard[1..])
  }

  /** Where the noise before the `i`-th message begins. */
  function NoiseStart(places: seq<nat>, i: nat): nat
    requires i <= |places|
  {
    if i == 0 then 0 else places[i - 1] + 1
  }

  /** An echo of an own message, or another copy of one of the first `i` heard. */
  ghost predicate EchoOrCopy(me: Role, heard: seq<(Message, nat)>, i: nat, m: Message) {
    m.sender == me || exists j :: 0 <= j < i && j < |heard| && m == heard[j].0
  }

  /** `raw` delivers the messages of `heard` from the `first` on, in order, at `places`;
      around them it holds any number of echoes and of copies of what came before. */
  ghost predicate Carries(
    me: Role, heard: seq<(Message, nat)>, first: nat, raw: seq<Message>, places: seq<nat>)
  {
    && first + |places| == |heard|
    && forall i :: first <= i < |heard| ==> CarriesAt(me, heard, first, raw, places, i)
  }

  ghost predicate CarriesAt(
    me: Role, heard: seq<(Message, nat)>, first: nat, raw: seq<Message>, places: seq<nat>, i: nat)
    requires first <= i < |heard| == first + |places|
  {
    var k := i - first;
    && NoiseStart(places, k) <= places[k] < |raw| && raw[places[k]] == heard[i].0
    && forall j :: NoiseStart(places, k) <= j < places[k] ==> EchoOrCopy(me, heard, i, raw[j])
  }

  /** The rival's messages carry its own numbers, and only the last may concede. */
  ghost predicate Numbered(me: Role, heard: seq<(Message, nat)>, first: nat) {
    forall i :: 0 <= i < |heard| ==>
      heard[i].0.sender != me && heard[i].0.step == first + i + 1 && (i + 1 < |heard| ==> !heard[i].0.Caught())
  }

  lemma NoiseBetween(
    me: Role, heard: seq<(Message, nat)>, first: nat, raw: seq<Message>, places: seq<nat>, i: nat, j: nat)
    requires Carries(me, heard, first, raw, places) && Numbered(me, heard, 0)
    requires first <= i < |heard| && NoiseStart(places, i - first) <= j < places[i - first]
    ensures j < |raw| && Noise(me, i, raw[j])
  {
    assert CarriesAt(me, heard, first, raw, places, i);
    assert EchoOrCopy(me, heard, i, raw[j]);
    if raw[j].sender != me {
      var n :| 0 <= n < i && n < |heard| && raw[j] == heard[n].0;
      assert heard[n].0.step == n + 1 && !heard[n].0.Caught();
    }
  }

  lemma PlaceFound(me: Role, heard: seq<(Message, nat)>, first: nat, raw: seq<Message>, places: seq<nat>, i: nat)
    requires Carries(me, heard, first, raw, places) && Numbered(me, heard, 0) && first <= i < |heard|
    ensures var k := i - first;
      && |places| == |heard| - first && NoiseStart(places, k) <= places[k] < |raw| && raw[places[k]] == heard[i].0
      && forall j :: NoiseStart(places, k) <= j < places[k] ==> Noise(me, i, raw[j])
    ensures heard[i].0.step == i + 1 && heard[i].0.sender != me
  {
    assert CarriesAt(me, heard, first, raw, places, i);
    forall j | NoiseStart(places, i - first) <= j < places[i - first] ensures Noise(me, i, raw[j]) {
      NoiseBetween(me, heard, first, raw, places, i, j);
    }
  }

  /** Listening for the `i`-th message of such a stream finds it. */
  lemma ListenHears(
    cap: nat, stored: map<int, int>, me: Role, heard: seq<(Message, nat)>, first: nat,
    raw: seq<Message>, places: seq<nat>, i: nat, at: nat)
    returns (at': nat)
    requires Carries(me, heard, first, raw, places) && Numbered(me, heard, 0)
    requires first <= i < |heard| == first + |places|
    requires NoiseStart(places, i - first) <= at <= places[i - first] < |raw| && raw[places[i - first]] == heard[i].0
    ensures Listen(cap, stored, me, i, Ear(HeardKeys(i), map[], at), raw) ==
      (Ok(places[i - first]), Ear(HeardKeys(i + 1), map[], at'))
    ensures places[i - first] + 1 <= at' <= |raw| && (i + 1 < |heard| ==> at' <= places[i + 1 - first])
  {
    hide Carries, CarriesAt, Numbered, Noise, Filed, Receiver.Next;
    var place := places[i - first];
    PlaceFound(me, heard, first, raw, places, i);
    ThroughNoise(cap, stored, me, i, raw, at, place);
    FiledPlaced(me, i + 1, raw, place + 1);
    var rest := Filed(me, i + 1, raw, place + 1);
    at' := if rest == [] then |raw| else rest[0].body;
    if i + 1 < |heard| {
      PlaceFound(me, heard, first, raw, places, i + 1);
    }
  }

  lemma ActKeeps(p: Peer, choice: Choice)
    requires p.Valid() && MyHalfTurn(p, choice).Ok?
    ensures var p' := MyHalfTurn(p, choice).value.0; p'.own.role == p.own.role && p'.theirStep == p.theirStep
  {
  }

  lemma HearKeeps(p: Peer, m: Message, nonce: nat)
    requires p.Valid() && TheirHalfTurn(p, m, nonce).Ok?
    ensures var p' := TheirHalfTurn(p, m, nonce).value.0; p'.own.role == p.own.role && p'.theirStep == p.theirStep + 1
  {
    HearCounts(p, m, nonce);
  }

  /** From any message on, over such a stream, the loop does what it would do over the messages alone. */
  lemma {:induction false} NoisyIsPlay(
    cap: nat, stored: map<int, int>, p: Peer, choices: seq<Choice>,
    heard: seq<(Message, nat)>, first: nat, raw: seq<Message>, places: seq<nat>, i: nat, at: nat)
    requires p.Valid() && first <= p.theirStep == i <= |heard|
    requires Carries(p.own.role, heard, first, raw, places) && Numbered(p.own.role, heard, 0)
    requires |places| == |heard| - first && NoiseStart(places, i - first) <= at <= |raw|
    requires i < |heard| ==> at <= places[i - first]
    ensures NoisyPlay(cap, stored, p, Ear(HeardKeys(i), map[], at), choices, raw, Nonces(heard[i..]))
        == Play(p, choices, heard[i..])
    decreases |choices| + |heard| - i
  {
    hide MyHalfTurn, TheirHalfTurn, Listen, Carries, CarriesAt, Numbered, HeardKeys;
    if p.own.outcome == Ongoing {
      if p.own.MyTurn() {
        if choices != [] && MyHalfTurn(p, choices[0]).Ok? {
          ActKeeps(p, choices[0]);
          NoisyIsPlay(cap, stored, MyHalfTurn(p, choices[0]).value.0, choices[1..], heard, first, raw, places, i, at);
        }
      } else if i < |heard| {
        PlaceFound(p.own.role, heard, first, raw, places, i);
        if i + 1 < |heard| {
          PlaceFound(p.own.role, heard, first, raw, places, i + 1);
        }
        var at' := ListenHears(cap, stored, p.own.role, heard, first, raw, places, i, at);
        assert heard[i..][0] == heard[i] && heard[i..][1..] == heard[i + 1..];
        if TheirHalfTurn(p, heard[i].0, heard[i].1).Ok? {
          HearKeeps(p, heard[i].0, heard[i].1);
          var p' := TheirHalfTurn(p, heard[i].0, heard[i].1).value.0;
          NoisyIsPlay(cap, stored, p', choices, heard, first, raw, places, i + 1, at');
        }
      }
    }
  }

  // --- honest runs ------------------------------------------------------------

  /** A peer whose game is over hears nothing more. */
  lemma {:induction false} DeafAfterwards(u: Setup, s: Sys, labels: seq<Label>, role: Role)
    requires Inv(u, s) && Side(s, role).own.outcome != Ongoing
    ensures HeardBy(role, s, labels) == []
    decreases labels
  {
    hide Inv, Next, MyHalfTurn, TheirHalfTurn;
    InvFrame(u, s);
    if labels != [] && Next(s, labels[0]).Some? {
      StepIsLocal(u, s, labels[0], role);
      NextInv(u, s, labels[0]);
      DeafAfterwards(u, Next(s, labels[0]).value, labels[1..], role);
    }
  }

  lemma NumberedCons(me: Role, m: Message, nonce: nat, heard: seq<(Message, nat)>, first: nat)
    requires Numbered(me, heard, first + 1) && m.sender != me && m.step == first + 1 && (heard != [] ==> !m.Caught())
    ensures Numbered(me, [(m, nonce)] + heard, first)
  {
  }

  /** One step of the run: an own half-turn leaves the count of heard messages alone,
      a receipt is of the next message in number, and only a last one may concede. */
  lemma StepCounts(u: Setup, s: Sys, l: Label, role: Role)
    requires Inv(u, s) && Next(s, l).Some?
    ensures var p, p' := Side(s, role), Side(Next(s, l).value, role);
      if l.Hears? && l.role == role
      then
        && Box(s, role) != [] && p'.theirStep == p.theirStep + 1
        && Box(s, role)[0].sender != role && Box(s, role)[0].step == p.theirStep + 1
        && (p'.own.outcome == Ongoing ==> !Box(s, role)[0].Caught())
      else p'.theirStep == p.theirStep
  {
    hide Inv, Next, MyHalfTurn, TheirHalfTurn;
    InvFrame(u, s);
    StepIsLocal(u, s, l, role);
    if l.role == role {
      var p := Side(s, role);
      if l.Acts? {
        ActKeeps(p, l.choice);
      } else {
        HearKeeps(p, Box(s, role)[0], l.nonce);
        HeadNumbered(u, s, role);
        HeardIsNoise(u, s, role, l.nonce);
      }
    }
  }

  lemma {:induction false} HeardNumbered(u: Setup, s: Sys, labels: seq<Label>, role: Role)
    requires Inv(u, s)
    ensures Numbered(role, HeardBy(role, s, labels), Side(s, role).theirStep)
    decreases labels
  {
    hide Inv, Next, Numbered, TheirHalfTurn, MyHalfTurn, HeardBy;
    InvFrame(u, s);
    if labels != [] && Next(s, labels[0]).Some? {
      var l, s' := labels[0], Next(s, labels[0]).value;
      NextInv(u, s, l);
      StepCounts(u, s, l, role);
      HeardNumbered(u, s', labels[1..], role);
      InputsCons(s, labels, role);
      if l.role == role && l.Hears? {
        if Side(s', role).own.outcome != Ongoing {
          DeafAfterwards(u, s', labels[1..], role);
        }
        NumberedCons(role, Box(s, role)[0], l.nonce, HeardBy(role, s', labels[1..]), Side(s, role).theirStep);
      }
    } else {
      NothingNumbered(role, s, labels);
    }
  }

  lemma NothingNumbered(role: Role, s: Sys, labels: seq<Label>)
    requires s.Valid() && (labels == [] || Next(s, labels[0]).None?)
    ensures Numbered(role, HeardBy(role, s, labels), Side(s, role).theirStep)
  {
    hide Next;
  }

  /** The two peers over a noisy channel: in every honest run, whatever echoes and
      copies of earlier messages the raw stream of a peer holds, its loop ends in the
      very state it has in that run. */
  lemma NoisyRun(
    u: Setup, labels: seq<Label>, role: Role, cap: nat, stored: map<int, int>, raw: seq<Message>, places: seq<nat>)
    requires u.Valid() && Run(Start(u), labels).Some?
    requires Carries(role, HeardBy(role, Start(u), labels), 0, raw, places)
    ensures NoisyPlay(cap, stored, Side(Start(u), role), Ear({}, map[], 0), ChoicesOf(role, labels), raw,
                      Nonces(HeardBy(role, Start(u), labels)))
      == Ok(Side(Run(Start(u), labels).value, role))
  {
    hide Run, NoisyPlay, Play, Carries;
    var s, heard := Start(u), HeardBy(role, Start(u), labels);
    StartInv(u);
    HeardNumbered(u, s, labels, role);
    RunIsTwoLoops(u, s, labels, role);
    CarriesLength(role, heard, 0, raw, places);
    assert HeardKeys(0) == {} && heard[0..] == heard;
    NoisyIsPlay(cap, stored, Side(s, role), ChoicesOf(role, labels), heard, 0, raw, places, 0, 0);
  }

  lemma CarriesLength(me: Role, heard: seq<(Message, nat)>, first: nat, raw: seq<Message>, places: seq<nat>)
    requires Carries(me, heard, first, raw, places)
    ensures first + |places| == |heard|
  {
  }
}
