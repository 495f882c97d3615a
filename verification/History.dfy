/** The two record halves of a run are the two halves of one game history. */
module History {
  import opened Primitives
  import opened OwnState
  import opened Messages
  import opened Perception
  import opened HiddenTurns
  import opened Audit
  import opened Reveals
  import opened Protocol
  import opened StepEffects
  import opened Agreement

  /** `r` seals the `step`-th half-turn of `role`, as logged in `e`. */
  predicate SealsEntry(r: Record, role: Role, sub: int, step: nat, e: Entry) {
    && e.payload.Step? && e.payload.role == role && e.payload.subGame == sub && e.payload.step == step
    && r == Sealed(e.payload, r.commit.nonce)
  }

  ghost predicate SealsAt(own: seq<Record>, role: Role, sub: int, log: seq<Entry>, off: nat, i: nat) {
    i + 1 < |own| && 2 * i + off < |log| && SealsEntry(own[i + 1], role, sub, i + 1, log[2 * i + off])
  }

  /** Own records: the declaration, then every other entry of the log from `off`. */
  ghost predicate OwnHalf(own: seq<Record>, role: Role, sub: int, log: seq<Entry>, off: nat, n: nat) {
    && |own| == n + 1 && own[0].payload.Some? && own[0].payload.value.Typed? && CommitClean(own[0])
    && forall i :: 0 <= i < n ==> SealsAt(own, role, sub, log, off, i)
  }

  /** What the rival keeps of a sealed half-turn: commit and open declarations. */
  function HeardAs(c: Commit, e: Entry): Record {
    Record(c, None, None,
           Some(Declared(SealedBarrier(e.payload), e.claim, if e.payload.Step? then Some(e.payload.hint) else None)))
  }

  ghost predicate HeardAt(theirs: seq<Record>, own: seq<Record>, log: seq<Entry>, off: nat, i: nat) {
    && i < |theirs| && i + 1 < |own| && 2 * i + off < |log|
    && theirs[i] == HeardAs(own[i + 1].commit, log[2 * i + off])
  }

  ghost predicate HeardHalf(theirs: seq<Record>, own: seq<Record>, log: seq<Entry>, off: nat, n: nat) {
    && |theirs| == n < |own|
    && forall i :: 0 <= i < n ==> HeardAt(theirs, own, log, off, i)
  }

  ghost predicate InFlight(m: Message, own: seq<Record>, log: seq<Entry>) {
    own != [] && log != [] && Live(m) == HeardAs(own[|own| - 1].commit, log[|log| - 1])
  }

  /** The entries of one side carry no live claim. */
  ghost predicate Unclaimed(log: seq<Entry>, off: nat) {
    forall i :: 0 <= i && 2 * i + off < |log| ==> log[2 * i + off].claim == None
  }

  ghost predicate HistoryInv(u: Setup, s: Sys) {
    && |s.log| == Sent(s)
    && OwnHalf(s.thief.ownRecords, Thief, u.subGame, s.log, 0, s.thief.myStep)
    && OwnHalf(s.police.ownRecords, Police, u.subGame, s.log, 1, s.police.myStep)
    && HeardHalf(s.police.theirRecords, s.thief.ownRecords, s.log, 0, s.police.theirStep)
    && HeardHalf(s.thief.theirRecords, s.police.ownRecords, s.log, 1, s.thief.theirStep)
    && (s.toPolice != [] ==> InFlight(s.toPolice[0], s.thief.ownRecords, s.log))
    && (s.toThief != [] ==> InFlight(s.toThief[0], s.police.ownRecords, s.log))
    && Unclaimed(s.log, 0)
  }

  lemma StartHistory(u: Setup)
    requires u.Valid()
    ensures HistoryInv(u, Start(u))
  {
  }

  /** Appending to the log and to one half leaves what was there. */
  lemma Extend(own: seq<Record>, role: Role, sub: int, log: seq<Entry>, off: nat, n: nat, r: Record, e: Entry)
    requires OwnHalf(own, role, sub, log, off, n)
    requires |log| == 2 * n + off && SealsEntry(r, role, sub, n + 1, e)
    ensures OwnHalf(own + [r], role, sub, log + [e], off, n + 1)
  {
    forall i | 0 <= i < n + 1 ensures SealsAt(own + [r], role, sub, log + [e], off, i) {
      assert i < n ==> SealsAt(own, role, sub, log, off, i);
    }
  }

  lemma KeepHalf(own: seq<Record>, role: Role, sub: int, log: seq<Entry>, off: nat, n: nat, more: seq<Entry>)
    requires OwnHalf(own, role, sub, log, off, n)
    ensures OwnHalf(own, role, sub, log + more, off, n)
  {
    forall i | 0 <= i < n ensures SealsAt(own, role, sub, log + more, off, i) {
      assert SealsAt(own, role, sub, log, off, i);
    }
  }

  lemma KeepHeard(theirs: seq<Record>, own: seq<Record>, log: seq<Entry>, off: nat, n: nat, rs: seq<Record>,
      more: seq<Entry>)
    requires HeardHalf(theirs, own, log, off, n)
    ensures HeardHalf(theirs, own + rs, log + more, off, n)
  {
    forall i | 0 <= i < n ensures HeardAt(theirs, own + rs, log + more, off, i) {
      assert HeardAt(theirs, own, log, off, i);
    }
  }

  /** A sealed half-turn goes into the records, into the log and on the wire. */
  lemma SealedAndLogged(p: Peer, p': Peer, role: Role, a: Action, m: Message)
    requires Seals(p, p', role, a, m)
    ensures var r := Sealed(m.commit.payload, m.commit.nonce);
      && p'.ownRecords == p.ownRecords + [r] && SealsEntry(r, role, p.subGame, p.myStep + 1, Logged(m))
      && Live(m) == HeardAs(r.commit, Logged(m))
  {
  }

  lemma HistoryThiefSends(u: Setup, s: Sys, s': Sys, a: Action, m: Message)
    requires HistoryInv(u, s) && |s.log| == 2 * s.thief.myStep && s.thief.myStep == s.police.myStep
    requires s'.police == s.police && s'.toThief == [] && s'.toPolice == [m] && s'.log == s.log + [Logged(m)]
    requires s.thief.subGame == u.subGame && Seals(s.thief, s'.thief, Thief, a, m) && m.claim == None
    requires HeardHalf(s'.thief.theirRecords, s.police.ownRecords, s.log, 1, s'.thief.theirStep)
    ensures HistoryInv(u, s')
  {
    var r, e := Sealed(m.commit.payload, m.commit.nonce), Logged(m);
    SealedAndLogged(s.thief, s'.thief, Thief, a, m);
    Extend(s.thief.ownRecords, Thief, u.subGame, s.log, 0, s.thief.myStep, r, e);
    KeepHalf(s.police.ownRecords, Police, u.subGame, s.log, 1, s.police.myStep, [e]);
    KeepHeard(s.police.theirRecords, s.thief.ownRecords, s.log, 0, s.police.theirStep, [r], [e]);
    KeepHeard(s'.thief.theirRecords, s.police.ownRecords, s.log, 1, s'.thief.theirStep, [], [e]);
    assert s.police.ownRecords + [] == s.police.ownRecords;
  }

  lemma HistoryPoliceSends(u: Setup, s: Sys, s': Sys, a: Action, m: Message)
    requires HistoryInv(u, s) && |s.log| == 2 * s.police.myStep + 1 && s.thief.myStep == s.police.myStep + 1
    requires s'.thief == s.thief && s'.toPolice == [] && s'.toThief == [m] && s'.log == s.log + [Logged(m)]
    requires s.police.subGame == u.subGame && Seals(s.police, s'.police, Police, a, m)
    requires s'.police.theirRecords == s.police.theirRecords && s'.police.theirStep == s.police.theirStep
    ensures HistoryInv(u, s')
  {
    var r, e := Sealed(m.commit.payload, m.commit.nonce), Logged(m);
    SealedAndLogged(s.police, s'.police, Police, a, m);
    Extend(s.police.ownRecords, Police, u.subGame, s.log, 1, s.police.myStep, r, e);
    KeepHalf(s.thief.ownRecords, Thief, u.subGame, s.log, 0, s.thief.myStep, [e]);
    KeepHeard(s.police.theirRecords, s.thief.ownRecords, s.log, 0, s.police.theirStep, [], [e]);
    KeepHeard(s.thief.theirRecords, s.police.ownRecords, s.log, 1, s.thief.theirStep, [r], [e]);
    assert s.thief.ownRecords + [] == s.thief.ownRecords;
  }

  lemma HeardOneMore(theirs: seq<Record>, own: seq<Record>, log: seq<Entry>, off: nat, n: nat, m: Message)
    requires HeardHalf(theirs, own, log, off, n) && InFlight(m, own, log)
    requires |own| == n + 2 && |log| == 2 * n + off + 1
    ensures HeardHalf(theirs + [Live(m)], own, log, off, n + 1)
  {
    forall i | 0 <= i < n + 1 ensures HeardAt(theirs + [Live(m)], own, log, off, i) {
      assert i < n ==> HeardAt(theirs, own, log, off, i);
    }
  }

  lemma HistoryThiefActs(u: Setup, s: Sys, s': Sys, a: Action, m: Message)
    requires Frame(u, s) && ThiefToMove(u, s) && HistoryInv(u, s) && s'.Valid() && ThiefActed(s, s', a, m)
    ensures HistoryInv(u, s')
  {
    hide Seals, OwnHalf, HeardHalf, InFlight, Unclaimed, CloseTurn, Serialize, StaysUnasked, Logged;
    HistoryThiefSends(u, s, s', a, m);
  }

  lemma HistoryPoliceActs(u: Setup, s: Sys, s': Sys, a: Action, m: Message)
    requires Frame(u, s) && PoliceToMove(u, s) && HistoryInv(u, s) && s'.Valid() && PoliceActed(s, s', a, m)
    ensures HistoryInv(u, s')
  {
    hide Seals, OwnHalf, HeardHalf, InFlight, Unclaimed, Serialize, Logged;
    HistoryPoliceSends(u, s, s', a, m);
  }

  lemma HalfLengths(u: Setup, s: Sys)
    requires HistoryInv(u, s)
    ensures |s.thief.ownRecords| == s.thief.myStep + 1 && |s.police.ownRecords| == s.police.myStep + 1
    ensures |s.log| == s.thief.myStep + s.police.myStep
  {
  }

  lemma HistoryThiefHears(u: Setup, s: Sys, s': Sys, closing: Option<Message>)
    requires Frame(u, s) && ThiefToHear(u, s) && HistoryInv(u, s) && s'.Valid() && PoliceHeard(s, s', closing)
    ensures HistoryInv(u, s')
  {
    hide Seals, OwnHalf, HeardHalf, InFlight, Unclaimed, Serialize, Observed, Dense, Logged, Live;
    HalfLengths(u, s);
    HeardOneMore(s.thief.theirRecords, s.police.ownRecords, s.log, 1, s.thief.theirStep, s.toThief[0]);
    if closing.Some? {
      HistoryThiefSends(u, s, s', Go(Stay), closing.value);
    } else {
      assert s.log + [] == s.log;
    }
  }

  /** Hearing a message books it, whichever message it is. */
  lemma HistoryPoliceHears(u: Setup, s: Sys, s': Sys)
    requires Frame(u, s) && (PoliceToHear(u, s) || Conceding(u, s)) && HistoryInv(u, s)
    requires StepHeard(s, s') || ConcessionHeard(s, s')
    ensures HistoryInv(u, s')
  {
    hide OwnHalf, HeardHalf, InFlight, Unclaimed, Observed, Dense, Live, CloseTurn;
    HalfLengths(u, s);
    HeardOneMore(s.police.theirRecords, s.thief.ownRecords, s.log, 0, s.police.theirStep, s.toPolice[0]);
  }

  lemma NextHistory(u: Setup, s: Sys, l: Label)
    requires Inv(u, s) && HistoryInv(u, s) && Next(s, l).Some?
    ensures HistoryInv(u, Next(s, l).value)
  {
    hide *;
    var s', m, closing := NextStepped(u, s, l);
    if ThiefToMove(u, s) {
      HistoryThiefActs(u, s, s', l.choice.action, m);
    } else if PoliceToMove(u, s) {
      HistoryPoliceActs(u, s, s', l.choice.action, m);
    } else if ThiefToHear(u, s) {
      HistoryThiefHears(u, s, s', closing);
    } else {
      HistoryPoliceHears(u, s, s');
    }
  }
}
