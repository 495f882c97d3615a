/** When a half-turn is refused, what verdict a heard one brings, and what becomes of a
    message that did not say what it sealed. */
module HalfTurnLaws {
  import opened Primitives
  import opened Boards
  import opened Scent
  import opened OwnState
  import opened Messages
  import opened Perception
  import opened HiddenTurns
  import opened Reveals
  import opened Audit
  import opened ReplaySoundness

  predicate Free(g: nat, walls: set<Cell>, c: Cell) {
    0 <= c.row < g && 0 <= c.col < g && c !in walls
  }

  /** One plays exactly on one's own token, a step to a free cell or none at all, or as
      the police a wall under the quota, within one step, on a free cell. */
  lemma PlayedExactly(p: Peer, ch: Choice)
    requires p.Valid()
    ensures var o := p.own;
      MyHalfTurn(p, ch).Ok? <==>
        && o.token == o.role
        && (match ch.action
            case Go(m) => m == Stay || Free(o.grid, o.walls, Applied(m, o.cell))
            case Wall(c) =>
              && o.role == Police && |o.walls| < o.rules.maxBarriers && Free(o.grid, o.walls, c)
              && Abs(c.row - o.cell.row) + Abs(c.col - o.cell.col) <= 1)
  {
    hide Updated, Serialize;
  }

  /** One hears exactly the other side, while it holds the token, and no wall off the
      board or past the quota; what breaks the quota alone is the rival's breach. */
  lemma HeardExactly(p: Peer, m: Message, nonce: nat)
    requires p.Valid()
    ensures var o := p.own;
      && (TheirHalfTurn(p, m, nonce).Ok? <==>
            && m.sender != o.role && o.token != o.role
            && (m.barrier.Some? ==>
                  && 0 <= m.barrier.value.row < o.grid && 0 <= m.barrier.value.col < o.grid
                  && (m.barrier.value in o.walls || |o.walls| < o.rules.maxBarriers)))
      && (TheirHalfTurn(p, m, nonce) == Err(RivalBreach) <==>
            && m.sender != o.role && m.barrier.Some? && Free(o.grid, o.walls, m.barrier.value)
            && |o.walls| >= o.rules.maxBarriers)
  {
    hide Updated, Serialize, Dense, Observed, LawCapture, Live;
  }

  /** The verdict of a heard half-turn: only the thief's own word that it is caught ends
      the game in capture for the police; a win claim or the police clock ends it in
      survival; and the thief gives in exactly to a true claim or to the walls. */
  lemma VerdictExactly(p: Peer, m: Message, nonce: nat)
    requires p.Valid() && p.own.outcome == Ongoing && TheirHalfTurn(p, m, nonce).Ok?
    ensures var o, o' := p.own, TheirHalfTurn(p, m, nonce).value.0.own;
      var hit := if m.claim.Some? then m.claim.value == o.cell else p.pending.Some? && p.pending.value.caught;
      o'.outcome ==
        if o.role == Police then
          if m.response.Some? && m.response.value.caught then Capture
          else if m.win || o.turns + 1 >= o.rules.threshold || o.turns + 1 >= o.rules.maxMoves then Survival
          else Ongoing
        else if m.win then Survival
        else if hit || LawCapture(o.grid, o'.walls, o.cell) then Capture
        else Ongoing
    ensures TheirHalfTurn(p, m, nonce).value.1.Some? <==>
      p.own.role == Thief && TheirHalfTurn(p, m, nonce).value.0.own.outcome == Capture
    ensures TheirHalfTurn(p, m, nonce).value.0.own.walls ==
      p.own.walls + (if m.barrier.Some? then {m.barrier.value} else {})
  {
    hide Received, LawCapture, Serialize;
    VerdictOnReceipt(p, m);
  }

  /** Before the thief's duty to answer. */
  lemma VerdictOnReceipt(p: Peer, m: Message)
    requires p.Valid() && p.own.outcome == Ongoing && Received(p, m).Ok?
    ensures var o, p' := p.own, Received(p, m).value;
      && p'.Valid() && p'.pending == p.pending
      && p'.own.role == o.role && p'.own.cell == o.cell && p'.own.grid == o.grid
      && p'.own.walls == o.walls + (if m.barrier.Some? then {m.barrier.value} else {})
      && p'.own.outcome ==
           if o.role == Police && m.response.Some? && m.response.value.caught then Capture
           else if m.win then Survival
           else if o.role == Police && (o.turns + 1 >= o.rules.threshold || o.turns + 1 >= o.rules.maxMoves)
           then Survival
           else Ongoing
  {
    hide Updated, Serialize, Dense, Observed, Live, LawCapture;
  }

  /** The message said another barrier or other words than it sealed. */
  predicate SaidOtherwise(m: Message) {
    && m.commit.payload.Step?
    && (|| m.hint != m.commit.payload.hint
        || match m.commit.payload.action
           case Wall(c) => m.barrier != Some(c)
           case Go(_) => m.barrier != None)
  }

  /** Once such a message is heard the audit is void, whatever else was played, heard and
      revealed: no reveal that re-proves its commit can be replayed. */
  lemma FalseWordsVoidTheAudit(
    p: Peer, m: Message, nonce: nat, live: seq<Record>, revealed: seq<Record>, own: seq<Record>, theirs: seq<Record>,
    t: Terms, sub: Option<int>)
    requires p.Valid() && TheirHalfTurn(p, m, nonce).Ok? && SaidOtherwise(m)
    requires forall r :: r in TheirHalfTurn(p, m, nonce).value.0.theirRecords ==> r in live
    requires VerifyReveals(live, revealed) == Ok(theirs)
    ensures Reconstruct(own, theirs, t, sub).Err?
  {
    hide OpenlyTrue, Entries;
    KeptUntilTheAudit(p, m, nonce);
    var k :| 0 <= k < |live| && live[k] == Live(m);
    assert theirs[k] == Opened(Live(m));
    var rs := own + theirs;
    assert rs[|own| + k] == Opened(Live(m));
    SaidIsNotSealed(m);
    assert !DeclaredAsSealed(rs);
    EntriesNeedHonestDeclarations(rs);
  }

  lemma SaidIsNotSealed(m: Message)
    requires SaidOtherwise(m)
    ensures var r := Opened(Live(m));
      r.payload.Some? && r.payload.value.Step? && r.declared.Some? && !OpenlyTrue(r.payload.value, r.declared.value)
  {
  }

  lemma KeptUntilTheAudit(p: Peer, m: Message, nonce: nat)
    requires p.Valid() && TheirHalfTurn(p, m, nonce).Ok?
    ensures Live(m) in TheirHalfTurn(p, m, nonce).value.0.theirRecords
  {
    hide Live, Absorbed, Observed, Serialize;
    var records := p.theirRecords + [Live(m)];
    assert records[|p.theirRecords|] == Live(m);
  }
}
