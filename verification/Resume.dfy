/** Crash and resume: what one peer writes down between half-turns, and what a fresh
    process rebuilds from it. */
module Resume {
  import opened Primitives
  import opened Boards
  import opened Scent
  import opened Forensics
  import opened Pathfind
  import opened Perception
  import opened OwnState
  import opened Messages
  import opened HiddenTurns
  import Receiver
  import opened Protocol
  import opened StepEffects
  import opened Agreement

  datatype OwnBlock = OwnBlock(
    cell: Cell, barriers: seq<Cell>, boundary: seq<Cell>, turns: nat, myToken: bool, rivalScent: Sparse)

  /** The verified negotiation message of the rival, as far as it is read back; an
      id that is missing is empty. */
  datatype Offer = Offer(groupId: string, identityGroupId: string, rest: string)

  /** peer_group_id: top level first, then the identity block. */
  function PeerGroupId(a: Offer): (id: string)
    ensures id != "" && (a.groupId != "" ==> id == a.groupId)
    ensures a.groupId == "" && a.identityGroupId != "" ==> id == a.identityGroupId
  {
    if a.groupId != "" then a.groupId else if a.identityGroupId != "" then a.identityGroupId else "unknown"
  }

  /** `steps` are the per-sender clocks, missing in a snapshot of an older make. */
  datatype Snapshot = Snapshot(
    turn: nat, steps: Option<(nat, nat)>, opponent: Offer, ownRecords: seq<Record>, theirRecords: seq<Record>,
    consumed: set<Receiver.Key>, own: OwnBlock, pending: Option<Response>, lastSent: Option<Message>, digest: Digest)

  /** One running process: the peer, its receiver, and what it knows of the rival. */
  datatype Process = Process(
    peer: Peer, inbox: Receiver.Inbox, lastSent: Option<Message>, opponent: Offer, opponentId: string)

  function WallAt(walls: set<Cell>): Cell -> bool { c => c in walls }

  /** The barriers of a board as a sorted list. */
  function Listed(g: nat, walls: set<Cell>): seq<Cell> { Scan(WallAt(walls), g, g) }

  function Block(o: Own): OwnBlock
    requires o.Valid()
  {
    OwnBlock(o.cell, Listed(o.grid, o.walls), o.boundary, o.turns, o.token == o.role, Serialize(o.grid, o.rival))
  }

  /** build_snapshot: everything this peer truly holds, and nothing it does not. */
  function BuildSnapshot(x: Process, turn: nat): Snapshot
    requires x.peer.Valid()
  {
    var p := x.peer;
    Snapshot(turn, Some((p.myStep, p.theirStep)), x.opponent, p.ownRecords, p.theirRecords, x.inbox.consumed,
             Block(p.own), p.pending, x.lastSent, p.own.Digest())
  }

  // --- rebuilding -------------------------------------------------------------

  /** Barriers re-placed one by one; the board refuses what it would always refuse. */
  function Rebuilt(g: nat, walls: set<Cell>, cells: seq<Cell>): Result<set<Cell>> {
    if cells == [] then Ok(walls)
    else
      var front :- Rebuilt(g, walls, cells[..|cells| - 1]);
      var c := cells[|cells| - 1];
      if Passable(g, front, c) then Ok(front + {c}) else Err(IllegalBarrier)
  }

  function RearmedOwn(o: Own, b: OwnBlock): Result<Own>
    requires o.Valid()
  {
    var walls :- Rebuilt(o.grid, o.walls, b.barriers);
    Ok(o.(cell := b.cell, walls := walls, scent := TrailFrom(o.grid, o.scent, b.boundary),
          boundary := o.boundary + b.boundary, turns := b.turns,
          token := if b.myToken then o.role else o.role.Rival(), rival := Dense(o.grid, b.rivalScent)))
  }

  /** rearm: the process and the half-turn it goes on from; a snapshot that does not
      rebuild the sealed state, or that predates per-sender steps, is refused. */
  function Rearmed(x: Process, s: Snapshot): Result<(Process, nat)>
    requires x.peer.Valid()
  {
    var o :- RearmedOwn(x.peer.own, s.own);
    if o.Digest() != s.digest then Err(Diverged)
    else if s.steps.None? then Err(Outdated)
    else
      var p := x.peer.(own := o, myStep := s.steps.value.0, theirStep := s.steps.value.1,
                       ownRecords := s.ownRecords, theirRecords := s.theirRecords, pending := s.pending);
      Ok((Process(p, x.inbox.(consumed := s.consumed), s.lastSent, s.opponent, PeerGroupId(s.opponent)), s.turn))
  }

  method ReplaceBarriers(board: Board, cells: seq<Cell>) returns (r: Result<()>)
    modifies board
    ensures match Rebuilt(board.grid, old(board.walls), cells)
      case Err(e) => r == Err(e)
      case Ok(walls) => r.Ok? && board.walls == walls
  {
    for k := 0 to |cells|
      invariant Rebuilt(board.grid, old(board.walls), cells[..k]) == Ok(board.walls)
    {
      RebuiltSnoc(board.grid, old(board.walls), cells, k);
      var _ :- board.AddBarrier(cells[k]);
    }
    assert cells[..|cells|] == cells;
    return Ok(());
  }

  method ReplayBoundary(own: State, cells: seq<Cell>)
    requires own.Valid()
    modifies own`boundary, own.scent
    ensures own.Valid()
    ensures own.scent.values == TrailFrom(own.board.grid, old(own.scent.values), cells)
    ensures own.boundary == old(own.boundary) + cells
  {
    for k := 0 to |cells|
      invariant own.Valid()
      invariant own.scent.values == TrailFrom(own.board.grid, old(own.scent.values), cells[..k])
      invariant own.boundary == old(own.boundary) + cells[..k]
    {
      assert cells[..k + 1][..k] == cells[..k];
      assert cells[..k + 1] == cells[..k] + [cells[k]];
      own.scent.Update(cells[k]);
      own.boundary := own.boundary + [cells[k]];
    }
    assert cells[..|cells|] == cells;
  }

  method RearmOwn(own: State, b: OwnBlock) returns (r: Result<()>)
    requires own.Valid()
    modifies own.Repr
    ensures own.Valid()
    ensures match RearmedOwn(old(own.View()), b)
      case Err(e) => r == Err(e)
      case Ok(o) => r.Ok? && own.View() == o
  {
    own.cell := b.cell;
    var _ :- ReplaceBarriers(own.board, b.barriers);
    ReplayBoundary(own, b.boundary);
    own.turns := b.turns;
    own.token := if b.myToken then own.role else own.role.Rival();
    own.received.Absorb(b.rivalScent);
    return Ok(());
  }

  class PeerProcess {
    const rt: HiddenRuntime
    const exchange: Receiver.SealedExchange
    var lastSent: Option<Message>
    var opponentInfo: Offer
    var opponentGroupId: string

    ghost predicate Valid()
      reads this, rt, rt.own, rt.own.Repr
    {
      rt.Valid() && exchange as object !in rt.own.Repr && this as object !in rt.own.Repr
    }

    ghost function View(): Process
      reads this, exchange, rt, rt.own, rt.own.board, rt.own.scent, rt.own.received
    {
      Process(rt.View(), exchange.View(), lastSent, opponentInfo, opponentGroupId)
    }

    constructor (rt: HiddenRuntime, exchange: Receiver.SealedExchange, opponentInfo: Offer)
      requires rt.Valid() && exchange as object !in rt.own.Repr
      ensures Valid() && this.rt == rt && this.exchange == exchange
      ensures View() == Process(rt.View(), exchange.View(), None, opponentInfo, PeerGroupId(opponentInfo))
    {
      this.rt, this.exchange, lastSent := rt, exchange, None;
      this.opponentInfo, opponentGroupId := opponentInfo, PeerGroupId(opponentInfo);
    }

    /** A half-turn of one's own; what it sends is remembered. */
    method TakeMyHalfTurn(ch: Choice) returns (r: Result<Message>)
      requires Valid()
      modifies this, rt, rt.own.Repr
      ensures Valid()
      ensures match MyHalfTurn(old(rt.View()), ch)
        case Err(e) => r == Err(e)
        case Ok((p, m)) => r == Ok(m) && View() == old(View()).(peer := p, lastSent := Some(m))
    {
      hide MyHalfTurn;
      var m :- rt.TakeMyHalfTurn(ch);
      lastSent := Some(m);
      return Ok(m);
    }

    /** A received half-turn; a concession it provokes is remembered likewise. */
    method TakeTheirHalfTurn(m: Message, nonce: nat) returns (r: Result<Option<Message>>)
      requires Valid()
      modifies this, rt, rt.own.Repr
      ensures Valid()
      ensures match TheirHalfTurn(old(rt.View()), m, nonce)
        case Err(e) => r == Err(e)
        case Ok((p, answer)) =>
          && r == Ok(answer)
          && View() == old(View()).(peer := p, lastSent := if answer.Some? then answer else old(lastSent))
    {
      hide TheirHalfTurn;
      var answer :- rt.TakeTheirHalfTurn(m, nonce);
      if answer.Some? {
        lastSent := answer;
      }
      return Ok(answer);
    }

    /** The snapshot flows back through the peer's own public surface. */
    method Rearm(s: Snapshot) returns (r: Result<nat>)
      requires Valid()
      modifies this, rt, rt.own.Repr, exchange
      ensures Valid()
      ensures match Rearmed(old(View()), s)
        case Err(e) => r == Err(e)
        case Ok((x, turn)) => r == Ok(turn) && View() == x
    {
      var _ :- RearmOwn(rt.own, s.own);
      if SelfDigest(rt.own.board.grid, rt.own.cell, rt.own.board.walls) != s.digest {
        return Err(Diverged);
      }
      if s.steps.None? {
        return Err(Outdated);
      }
      rt.myStep, rt.theirStep := s.steps.value.0, s.steps.value.1;
      rt.ownRecords, rt.theirRecords := s.ownRecords, s.theirRecords;
      exchange.consumed := s.consumed;
      lastSent := s.lastSent;
      rt.pending := s.pending;
      opponentInfo, opponentGroupId := s.opponent, PeerGroupId(s.opponent);
      return Ok(s.turn);
    }
  }

  /** The first refused barrier is final. */
  lemma {:induction false} RefusedBarrier(g: nat, walls: set<Cell>, cells: seq<Cell>, n: nat)
    requires n <= |cells| && Rebuilt(g, walls, cells[..n]).Err?
    ensures Rebuilt(g, walls, cells) == Rebuilt(g, walls, cells[..n])
  {
    if n < |cells| {
      assert cells[..|cells| - 1][..n] == cells[..n];
      RefusedBarrier(g, walls, cells[..|cells| - 1], n);
    } else {
      assert cells[..n] == cells;
    }
  }

  lemma RebuiltSnoc(g: nat, walls: set<Cell>, cells: seq<Cell>, k: nat)
    requires k < |cells| && Rebuilt(g, walls, cells[..k]).Ok?
    ensures var front := Rebuilt(g, walls, cells[..k]).value;
      && Rebuilt(g, walls, cells[..k + 1])
        == (if Passable(g, front, cells[k]) then Ok(front + {cells[k]}) else Err(IllegalBarrier))
      && (!Passable(g, front, cells[k]) ==> Rebuilt(g, walls, cells) == Err(IllegalBarrier))
  {
    assert cells[..k + 1][..k] == cells[..k];
    if !Passable(g, Rebuilt(g, walls, cells[..k]).value, cells[k]) {
      RefusedBarrier(g, walls, cells, k + 1);
    }
  }

  // --- the round trip ---------------------------------------------------------

  /** What a peer's local truth satisfies in every state of every honest run. */
  ghost predicate Restorable(p: Peer) {
    && p.Valid() && p.own.scent == Trail(p.own.grid, p.own.boundary)
    && (forall c :: c in p.own.walls ==> InBounds(p.own.grid, c))
    && (p.own.outcome == Ongoing ==>
          p.own.rival == if p.trust.prev.Some? then p.trust.prev.value else Silence(p.own.grid))
    && (p.trust.prev.Some? ==> NonNegative(p.own.grid, p.trust.prev.value))
  }

  /** Distinct in-board cells all go back onto an empty board. */
  lemma {:induction false} RebuiltFromList(g: nat, cells: seq<Cell>)
    requires Distinct(cells) && forall i :: 0 <= i < |cells| ==> InBounds(g, cells[i])
    ensures Rebuilt(g, {}, cells) == Ok(Members(cells))
  {
    if cells == [] {
      assert Members(cells) == {};
    } else {
      var front, last := cells[..|cells| - 1], cells[|cells| - 1];
      RebuiltFromList(g, front);
      assert cells == front + [last];
      assert forall i :: 0 <= i < |front| ==> front[i] == cells[i] != last;
      assert last !in front;
      assert Members(cells) == Members(front) + {last};
    }
  }

  lemma ListedRebuilds(g: nat, walls: set<Cell>)
    requires forall c :: c in walls ==> InBounds(g, c)
    ensures Rebuilt(g, {}, Listed(g, walls)) == Ok(walls)
  {
    var cells := Listed(g, walls);
    ScanDistinct(WallAt(walls), g, g);
    forall c ensures c in cells <==> c in walls { ScanMembers(WallAt(walls), g, g, c); }
    forall i | 0 <= i < |cells| ensures InBounds(g, cells[i]) { assert cells[i] in cells; }
    RebuiltFromList(g, cells);
    assert Members(cells) == walls;
  }

  /** A fresh process of the same game: same role, terms and start. */
  predicate FreshFor(p: Peer, q: Peer) {
    && q.own == FreshOwn(p.own.role, p.own.grid, q.own.cell, p.own.rules)
    && q.subGame == p.subGame && q.Valid()
  }

  lemma OwnRestores(o: Own, start: Cell)
    requires o.Valid() && o.scent == Trail(o.grid, o.boundary) && NonNegative(o.grid, o.rival)
    requires (forall c :: c in o.walls ==> InBounds(o.grid, c)) && o.outcome == Ongoing
    ensures RearmedOwn(FreshOwn(o.role, o.grid, start, o.rules), Block(o)) == Ok(o)
  {
    ListedRebuilds(o.grid, o.walls);
    SparseRoundTrip(o.grid, o.rival);
    assert [] + o.boundary == o.boundary;
  }

  /** What a crash costs: the scent trust and the messages not yet handed over.  All
      else is back, and the process goes on from the same half-turn. */
  function Survivor(x: Process, restarted: Process): Process {
    x.(peer := x.peer.(trust := restarted.peer.trust), inbox := restarted.inbox.(consumed := x.inbox.consumed))
  }

  lemma ResumeRestores(x: Process, restarted: Process, turn: nat)
    requires Restorable(x.peer) && x.peer.own.outcome == Ongoing && FreshFor(x.peer, restarted.peer)
    requires x.opponentId == PeerGroupId(x.opponent)
    ensures Rearmed(restarted, BuildSnapshot(x, turn)) == Ok((Survivor(x, restarted), turn))
  {
    OwnRestores(x.peer.own, restarted.peer.own.cell);
  }

  /** Barriers go back exactly when they are open cells of the board, each once. */
  lemma {:induction false} RebuiltExactly(g: nat, walls: set<Cell>, cells: seq<Cell>)
    ensures Rebuilt(g, walls, cells).Ok? <==>
      Distinct(cells) && forall c :: c in cells ==> 0 <= c.row < g && 0 <= c.col < g && c !in walls
    ensures Rebuilt(g, walls, cells).Ok? ==> Rebuilt(g, walls, cells).value == walls + (set c | c in cells)
    ensures Rebuilt(g, walls, cells).Err? ==> Rebuilt(g, walls, cells).error == IllegalBarrier
  {
    hide Distinct;
    if cells == [] {
      NothingTwice();
      assert walls + (set c | c in cells) == walls;
    } else {
      var n := |cells| - 1;
      var front, last := cells[..n], cells[n];
      RebuiltExactly(g, walls, front);
      assert cells == front + [last];
      DistinctSnoc(front, last);
      OneCellMore(walls, front, last);
    }
  }

  lemma NothingTwice()
    ensures Distinct<Cell>([])
  {
  }

  lemma OneCellMore(walls: set<Cell>, front: seq<Cell>, last: Cell)
    ensures walls + (set c | c in front + [last]) == walls + (set c | c in front) + {last}
  {
  }

  lemma DistinctSnoc(front: seq<Cell>, last: Cell)
    ensures Distinct(front + [last]) <==> Distinct(front) && last !in front
  {
    if Distinct(front) && last !in front {
      LastIsNew(front, last);
    }
    if Distinct(front + [last]) {
      assert (front + [last])[..|front|] == front;
      FrontDistinct(front + [last]);
    }
  }

  lemma LastIsNew(front: seq<Cell>, last: Cell)
    requires Distinct(front) && last !in front
    ensures Distinct(front + [last])
  {
  }

  lemma FrontDistinct(cells: seq<Cell>)
    requires cells != [] && Distinct(cells)
    ensures Distinct(cells[..|cells| - 1]) && cells[|cells| - 1] !in cells[..|cells| - 1]
  {
  }

  /** No process goes on from a snapshot whose barriers do not go back, that its state
      does not hash to, or that carries no per-sender steps; and it is said which. */
  lemma RearmRefuses(x: Process, s: Snapshot)
    requires x.peer.Valid()
    ensures var own, cells := x.peer.own, s.own.barriers;
      var placed := Distinct(cells) &&
        forall c :: c in cells ==> 0 <= c.row < own.grid && 0 <= c.col < own.grid && c !in own.walls;
      var fits := s.digest == SelfDigest(own.grid, s.own.cell, own.walls + (set c | c in cells));
      && (Rearmed(x, s).Ok? <==> placed && fits && s.steps.Some?)
      && (Rearmed(x, s) == Err(IllegalBarrier) <==> !placed)
      && (Rearmed(x, s) == Err(Diverged) <==> placed && !fits)
      && (Rearmed(x, s) == Err(Outdated) <==> placed && fits && s.steps.None?)
  {
    hide Rebuilt, TrailFrom, Dense, Distinct;
    RebuiltExactly(x.peer.own.grid, x.peer.own.walls, s.own.barriers);
  }

  // --- over whole runs --------------------------------------------------------

  ghost predicate RestorableInv(u: Setup, s: Sys) {
    && Restorable(s.police) && Restorable(s.thief)
  }

  lemma StartRestorable(u: Setup)
    requires u.Valid()
    ensures RestorableInv(u, Start(u))
  {
  }

  /** Nothing that a snapshot rebuilds changed, but for walls and who is where. */
  lemma StillRestorable(p: Peer, p': Peer)
    requires Restorable(p) && p'.Valid() && p'.own.grid == p.own.grid && p'.trust == p.trust
    requires p'.own.rival == p.own.rival
    requires p'.own.scent == Trail(p.own.grid, p'.own.boundary)
    requires p'.own.outcome == Ongoing ==> p.own.outcome == Ongoing
    requires forall c :: c in p'.own.walls - p.own.walls ==> InBounds(p.own.grid, c)
    ensures Restorable(p')
  {
  }

  /** Nor did hearing an honest trail, which the trust now holds as the last frame. */
  lemma HearingRestorable(p: Peer, p': Peer, m: Message, sender: Own, walls: set<Cell>)
    requires Restorable(p) && p'.Valid() && p'.own.grid == p.own.grid == sender.grid
    requires sender.Valid() && sender.scent == Trail(sender.grid, sender.boundary)
    requires m.smell == Serialize(sender.grid, sender.scent)
    requires p'.own.rival == Dense(p.own.grid, m.smell)
    requires p'.trust == Observed(p.trust, Dense(p.own.grid, m.smell), walls)
    requires p'.own.scent == Trail(p.own.grid, p'.own.boundary)
    requires forall c :: c in p'.own.walls - p.own.walls ==> InBounds(p.own.grid, c)
    ensures Restorable(p')
  {
    hide Trail, Dense, Serialize;
    TrailCrosses(sender.grid, sender.boundary);
    TrailNonNegative(sender.grid, sender.boundary);
  }

  lemma ThiefActRestorable(u: Setup, s: Sys, s': Sys, a: Action, m: Message)
    requires Frame(u, s) && ThiefToMove(u, s) && RestorableInv(u, s) && s'.Valid() && ThiefActed(s, s', a, m)
    ensures RestorableInv(u, s')
  {
    hide Seals, Trail, Updated, Serialize, Surrounded, StaysUnasked, LegalMove;
    TrailSnoc(s.thief.own.grid, s.thief.own.boundary, s'.thief.own.cell);
    StillRestorable(s.thief, s'.thief);
  }

  lemma PoliceActRestorable(u: Setup, s: Sys, s': Sys, a: Action, m: Message)
    requires Frame(u, s) && PoliceToMove(u, s) && RestorableInv(u, s) && s'.Valid() && PoliceActed(s, s', a, m)
    ensures RestorableInv(u, s')
  {
    hide Seals, Trail, Serialize, LegalMove;
    StillRestorable(s.police, s'.police);
  }

  lemma PoliceHearRestorable(u: Setup, s: Sys, s': Sys)
    requires Frame(u, s) && PoliceToHear(u, s) && RestorableInv(u, s) && s'.Valid() && StepHeard(s, s')
    ensures RestorableInv(u, s')
  {
    hide Trail, Updated, Dense, Serialize, Observed, Live;
    var p := s.police.own;
    TrailSnoc(p.grid, p.boundary, p.cell);
    HearingRestorable(s.police, s'.police, s.toPolice[0], s.thief.own, s'.police.own.walls);
  }

  lemma ConcessionRestorable(u: Setup, s: Sys, s': Sys)
    requires Frame(u, s) && RestorableInv(u, s) && s'.Valid() && ConcessionHeard(s, s')
    ensures RestorableInv(u, s')
  {
    hide Trail, Dense, Live;
  }

  lemma ThiefHearRestorable(u: Setup, s: Sys, s': Sys, closing: Option<Message>)
    requires Frame(u, s) && ThiefToHear(u, s) && RestorableInv(u, s) && s'.Valid() && PoliceHeard(s, s', closing)
    ensures RestorableInv(u, s')
  {
    hide Seals, Trail, Updated, Dense, Serialize, Observed, Live, Caught;
    HearingRestorable(s.thief, s'.thief, s.toThief[0], s.police.own, AfterPolice(s.thief.own, s.toThief[0]).walls);
  }

  lemma NextRestorable(u: Setup, s: Sys, l: Label)
    requires Inv(u, s) && RestorableInv(u, s) && Next(s, l).Some?
    ensures RestorableInv(u, Next(s, l).value)
  {
    hide *;
    var s', m, closing := NextStepped(u, s, l);
    if ThiefToMove(u, s) {
      ThiefActRestorable(u, s, s', l.choice.action, m);
    } else if PoliceToMove(u, s) {
      PoliceActRestorable(u, s, s', l.choice.action, m);
    } else if ThiefToHear(u, s) {
      ThiefHearRestorable(u, s, s', closing);
    } else if PoliceToHear(u, s) {
      PoliceHearRestorable(u, s, s');
    } else {
      ConcessionRestorable(u, s, s');
    }
  }

  lemma {:induction false} RunRestorable(u: Setup, s: Sys, labels: seq<Label>)
    requires Inv(u, s) && RestorableInv(u, s) && Run(s, labels).Some?
    ensures RestorableInv(u, Run(s, labels).value)
    decreases labels
  {
    if labels != [] {
      NextInv(u, s, labels[0]);
      NextRestorable(u, s, labels[0]);
      RunRestorable(u, Next(s, labels[0]).value, labels[1..]);
    }
  }

  /** The crash-resume round trip, in every state of every honest run: a process
      whose game is still open is rebuilt whole from its own snapshot - cell, walls,
      both fields, clock, token, steps, records, pending answer, consumed messages,
      last message, opponent - except for the scent trust, which starts over, and for
      what had arrived but was not handed over. */
  lemma CrashResume(u: Setup, labels: seq<Label>, role: Role, x: Process, restarted: Process, turn: nat)
    requires u.Valid() && Run(Start(u), labels).Some?
    requires var s := Run(Start(u), labels).value;
      && x.peer == (if role == Thief then s.thief else s.police) && x.opponentId == PeerGroupId(x.opponent)
      && x.peer.own.outcome == Ongoing && FreshFor(x.peer, restarted.peer)
    ensures x.peer.Valid()
    ensures Rearmed(restarted, BuildSnapshot(x, turn)) == Ok((Survivor(x, restarted), turn))
  {
    StartInv(u);
    StartRestorable(u);
    RunRestorable(u, Start(u), labels);
    ResumeRestores(x, restarted, turn);
  }
}
