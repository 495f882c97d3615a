# Verified model of the hidden-information pursuit game

Two peers, a police agent and a thief, play a pursuit game on a small grid. Neither
sees the other. Each half-turn sends one message that carries a *commit* to the move,
the sender's scent trail and whatever must be said openly (a barrier, a capture claim,
an answer to a claim). When the game is over both sides reveal their sealed records and
each replays the whole game to check that it is the game it lived. Around that protocol
stand the hardened receiver, the forensics that hold a transmitted trail to the law of
scent, the thief's survival certificate, the cage forecast and the belief map.

The project models these parts from `src/p2p_thief` and proves what they are for.
Objects that the program updates in place are classes whose methods are proved against
functions on values; the theorems are about those functions.

## Layout

| file | part of the program |
|---|---|
| `Primitives.dfy`, `Boards.dfy`, `Engine.dfy` | cells, moves, board law, rules, the single-process engine |
| `Scent.dfy`, `Forensics.dfy`, `ForeignScent.dfy`, `Perception.dfy`, `Flooring.dfy`, `Evidence.dfy`, `Decode.dfy` | the scent law, the trail forensics, the other published law, the trust latch and its record, what a frame must be to be accepted, the plateau fit, the reach decode |
| `OwnState.dfy`, `Messages.dfy`, `HiddenTurns.dfy`, `HalfTurnLaws.dfy`, `FullRuntime.dfy`, `TurnLoop.dfy` | one peer of the hidden wire: its state, messages, half-turn handlers and exactly when they refuse, perception and loop |
| `Reveals.dfy`, `Sorting.dfy`, `Audit.dfy`, `ReplaySoundness.dfy`, `Dispute.dfy` | the end-of-game audit and the dispute check |
| `Protocol.dfy`, `StepEffects.dfy`, `Agreement.dfy`, `Answers.dfy`, `History.dfy`, `Completeness.dfy`, `HonestScent.dfy` | two peers as a transition system, what a step does, and what every run keeps |
| `Resume.dfy`, `ResumedGame.dfy`, `ResumedScent.dfy` | the crash snapshot, its restoration, the game after it, and what the restart costs |
| `Receiver.dfy`, `NoisyRuns.dfy` | the at-least-once receiver, and whole runs through it |
| `Certificate.dfy`, `CertificateGame.dfy` | the survival certificate, and what it means in the engine |
| `Pathfind.dfy`, `CageForecast.dfy`, `CageSites.dfy` | breadth-first search, the k-wall cage forecast, and what its cap on wall sites costs |
| `Belief.dfy`, `Spreading.dfy`, `Following.dfy`, `FullPerception.dfy`, `Posterior.dfy`, `BeliefRuns.dfy` | the belief map, where its mass goes and what draws it, one whole observation and its posterior, and both over whole runs |
| `ScriptedRuns.dfy`, `Counterexamples.dfy` | runs put together from half-turns, and concrete inputs showing that the conditions of the main results are needed |

## Main results

* **The audit agrees with the game, exactly when it can.** For every finished run of two
  honest peers with arbitrary brains, each auditor's replay gives the outcome and the
  clock that peer lived if and only if the thief never answered an unclaimed
  co-location by staying put; and then both auditors hold the same reconstruction with
  the digest of the true final board (`Completeness.AuditCompleteness`). The
  precondition is one of the code: `reconstruct` reads any thief STAY after a
  co-location as the concession, while live claims are gated by belief and a barrier
  action never claims. `Counterexamples.SurvivalReadAsCapture` is a run it excludes
  (so the hypotheses about runs are met by a concrete finished run).
* **What the audit accepts, without its machinery.** Whoever wrote the records, for any
  agreed terms with starts on the board `reconstruct` returns if and only if every live
  declaration names the sealed barrier, or none beside a sealed step, and the sealed hint,
  and the sorted records are one legal game played to an end and followed by nothing but
  concessions; it returns that game's verdict (`ReplaySoundness.AuditAcceptsWholeGames`).
  So one heard message that said another barrier or other words than it sealed voids the
  audit, whatever is revealed (`HalfTurnLaws.FalseWordsVoidTheAudit`).
* **The truth duty.** The thief gives in exactly to a true claim or to the walls
  (`HalfTurnLaws.VerdictExactly`), the message after a denied claim denies that claim and
  no other, and so two thieves on different cells that deny one claim answer alike: a
  denial tells the police nothing else (`Answers.DenialsAnswerTheClaim`,
  `Answers.DenialsAreAlike`).
* **Two-peer agreement.** In every reachable state exactly one token or message exists,
  no handler raises, walls and clocks agree up to the message in flight, both sides end
  with one verdict, and a game takes at most `2m - 1` messages
  (`Agreement.TwoPeerAgreement`); each peer's state is what its own play loop computes,
  and it is the same when the messages reach it through any echoes and re-deliveries
  (`TurnLoop.RunIsTwoLoops`, `NoisyRuns.NoisyRun`).
* **What a frame must be to be accepted**, from the frames alone: under the book law,
  silent, or one deposit on the decayed frame before up to a thousandth, with faded
  residues put back when that is needed; and saturated nowhere that the rival cannot have
  been (`Flooring.AcceptedExactly`). A frame whose sender zeroed such residues is accepted
  with the true emitter among the candidates (`Flooring.ZeroedFrameAccepted`), a larger
  zeroed reading is refused (`Flooring.LargeResidueRefused`), and the summary accounts for
  every frame of any stream (`Perception.EveryFrameBooked`).
* **No false refusal, and bounded damage.** In no honest run under the book law is a frame
  refused or trust lost, and every pinned trail head is true
  (`HonestScent.NoFalseRefusal`). Inside the reach envelope, corrupted frames that are
  spaced cost two refusals each in total and never latch
  (`Perception.CorruptFramesRecover`), and the spacing is exact: over a set of corrupted
  frames some otherwise honest stream inside the envelope costs the trust if and only if
  two of them are less than three apart and are not the very first two
  (`Counterexamples.SpacingIsExact`). One frame outside the envelope costs it at once.
* **The certificate is sound and exact.** A certified move survives every legal line of
  cop moves and walls from every board cell believed at least the threshold
  (`CertificateGame.CertifiedMoveSurvives`); the memoised search equals the plain game value although its key omits the quota; and
  where the certificate applies, a search that does not run out of budget certifies, with
  `threshold <= maxMoves`, exactly from the forced-survival set, and its best-ranked move
  (`CertificateGame.CertificateExact`). In the other case a game that the engine plays
  holds a forced survival while the search refuses every move (`EarlyLimitRefused`).
* **The receiver refines a FIFO channel** over any duplicating, reordering transport that
  delivers every expected message at least once and keeps fewer undelivered keys ahead of
  it than the buffer holds (`Receiver.RefinesFifo`); over any arrivals at all it hands over
  each expected key at most once, in order (`Receiver.ExactlyOnce`).
* **The cage forecast is the worst case** over all sets of at most `min(k, quota)` walls
  drawn from one believed cop's capped site list, though it looks at one size only
  (`CageForecast.ForecastIsLeast`). It is the worst case over *every* feared cage when no
  more sites qualify than the cap keeps (`CageSites.SlackCapIsExact`), and bounds every
  feared cage when nothing that the cap drops can be walked to
  (`CageSites.ForecastCoversEveryCage`). Otherwise it need not: with the configured reach,
  on a 7x7 board, `CageSites.CapHidesTheCut` is a forecast that misses a cut; and where
  all kept sites are out of reach it bounds every cage if and only if the dropped ones
  are too (`CageSites.BlindForecast`).
* **The posterior as one formula.** After an accepted frame the odds of any two open cells
  are those of the moved belief times what the decoded scent, the hint, the plateau and the
  trail head say of each, in the program's numbers (`Posterior.PosteriorOdds`). The moved
  belief is the prior spread in equal shares over each cell and its open neighbours, or
  translated by the step that the hint names (`Spreading.RefusedFrameMovesOnly`), and a
  lone fresh reading draws it to its cell (`Following.SpikeRaises`).
* **The belief never loses the thief** in any honest run with truthful move echoes:
  for any evidence (`BeliefRuns.BeliefNeverLosesTheThief`), and for the evidence, plateau
  and trail head that the peer itself makes of the frames, all of which it accepts
  (`BeliefRuns.PerceptionNeverLosesTheThief`).
* **Crash and resume** restores every process of every honest run, but for the scent trust
  and for what had arrived and was not handed over (`Resume.CrashResume`). The second does
  no harm: the rival's last message is the one in flight or one heard before, so its
  re-send supplies what was lost or is noise, and the resumed process plays the run to the
  same end (`ResumedGame.ResumedGameIsTheSame`). What the first costs: after a resume an
  honest rival is trusted exactly as long as its frames lie inside the restarted envelope,
  and from the first one outside it everything is refused for good
  (`ResumedScent.ResumedTrust`, `Perception.LostForGood`). So "no false refusal" does not
  survive a restart: `ResumedScent.HonestRivalDisbelieved` is an honest game in which it
  fails.
* **No false accusation, and none missed**: an honest reveal accuses exactly when the
  walls decided the game on the thief's last cell (`Dispute.AccusedExactlyWhenSealed`),
  and the check over any honest reveals of a finished honest run finds nothing that was
  not conceded (`Dispute.HonestRevealsFindNothing`).

## Modelling decisions

* The commit is an ideal injective constructor over (payload, nonce) that no receiver
  opens; digests are ideal too.
* Brains, hints, the belief gate of a capture claim and all nonces are arbitrary inputs.
* Floating-point readings are reals. The age of a reading, a rounded quotient of
  logarithms, is taken in its exact form by comparing squares. Rounding goes to the even
  neighbour on a tie, as the program's does.
* A wait is "the next message of an arbitrary arrival sequence"; a missed deadline is
  running out of arrivals. The certificate's wall clock is an arbitrary Boolean.
* Python exceptions are `Result` values.

## Model

| member | source | states |
|---|---|---|
| `Boards.OwnMoveNeverSeals` | src/p2p_thief/domain/board.py:61-84 | a thief that is not captured cannot capture itself by a legal move of its own: the cell it left stays open |
| `Boards.OpenBoardSealsNobody` | src/p2p_thief/domain/board.py:76-84 | without walls no cell of a board of side two or more is surrounded |
| `Boards.WallsDecide` | src/p2p_thief/domain/board.py:53-84 | the walls capture exactly on a walled cell or one with every orthogonal neighbour walled or off the board; then staying is the only move |
| `Boards.Board.AddBarrier` | src/p2p_thief/domain/board.py:44-51 | a wall is added exactly when its cell is in bounds and free, and nothing else changes |
| `Boards.Board.PlaceWall` | src/p2p_thief/domain/rules.py:39-60 | accepted exactly under the law of barriers: quota, reach, bounds, no duplicate |
| `Engine.GameEngine.PoliceMove` | src/p2p_thief/domain/engine.py:75-81 | the whole new game state, or the refusal and no change |
| `Engine.GameEngine.PolicePlaceBarrier` | src/p2p_thief/domain/engine.py:83-92 | the whole new game state, with capture on the thief's cell or by sealing |
| `Engine.GameEngine.MoveThief` | src/p2p_thief/domain/engine.py:94-115 | the whole new game state; the turn closes unless the move walked into the cop, and both scent fields are updated exactly then |
| `Engine.GameEngine.CloseFullTurn` | src/p2p_thief/domain/engine.py:104-115 | clock, both scent fields and the end-of-turn verdict |
| `Engine.ActSound` | src/p2p_thief/domain/engine.py:64-115 | every accepted action keeps the invariant, only adds walls, and lets a thief be caught off the cop's cell by a barrier alone |
| `Engine.PlayScentsAreTrails` | src/p2p_thief/domain/engine.py:94-115 | each of the two fields of a run is the trail of the cells that agent held when the full turns closed |
| `Engine.RunSound` | src/p2p_thief/domain/engine.py:64-115 | every run from distinct starts: bounds, quota, an unsealed thief while open, survival only at the limit, terminal states frozen, at most twice the limit of actions, both scent fields within [0, 0.9] |
| `Scent.Delta` | src/p2p_thief/domain/scent.py:88-93 | the deposit is within [0, 0.9] and positive exactly under the 5x5 kernel |
| `Scent.TrailSupport` | src/p2p_thief/domain/scent.py:95-105 | after any emissions a reading is in [0, 0.9], and positive exactly where some emission reached |
| `Scent.ScentField.Update` | src/p2p_thief/domain/scent.py:95-105 | the in-place double loop computes one application of the update law |
| `Forensics.Emitters` | src/p2p_thief/domain/trail_forensics.py:54-87 | contains a cell exactly when a single deposit there explains the transition |
| `Forensics.CredibleCells` | src/p2p_thief/domain/trail_forensics.py:30-51 | exactly the cells under the kernel of something within `elapsed` steps of the anchor, or the whole board without one |
| `Forensics.SaturatedCells` | src/p2p_thief/domain/evidence.py:72-80 | exactly the unwalled cells whose reading decodes to reach 0 |
| `Forensics.TransitionEmitters` | src/p2p_thief/domain/trail_forensics.py:54-87 | the nested loops collect the explaining emitters in row-major order |
| `Forensics.SolveWithTolerance` | src/p2p_thief/peer/floor_tolerance.py:29-51 | emitters of the frame as it is, or else of the frame with its floored residue restored |
| `Forensics.SolvedDirectly` | src/p2p_thief/peer/floor_tolerance.py:29-39 | a transition that some deposit explains is never treated as floored |
| `Forensics.HonestUpdateExplained` | src/p2p_thief/domain/trail_forensics.py:54-87 | the true emitter of an honest update is always among the emitters |
| `Forensics.HonestTrailCredible` | src/p2p_thief/domain/trail_forensics.py:30-51 | nothing an honest walker from the agreed start emits lies outside the reach envelope |
| `Perception.Observer.CheckLaw` | src/p2p_thief/peer/floor_tolerance.py:54-107 | census, floored record, break streak, emitter and latch as one state change |
| `Perception.Observer.Observe` | src/p2p_thief/peer/perception.py:124-147 | the trust steps: law check, envelope latch, baseline and refusal record in the order of the code, and whether the frame was accepted |
| `ForeignScent.FindForeignEmitters` | src/p2p_thief/peer/foreign_scent.py:29-63 | the nested loops collect exactly the cells whose deposit explains the transition under the other law |
| `ForeignScent.ForeignTrailReads` | src/p2p_thief/peer/foreign_scent.py:29-47 | on boards of side five or more a trail under that law reads, everywhere, nine, six or three tenths of its freshest deposit less one tenth a turn |
| `ForeignScent.ForeignUpdateExplained` | src/p2p_thief/peer/foreign_scent.py:50-63 | the true emitter of a rival that follows that law is among them |
| `Perception.ForeignNeverBreaks` | src/p2p_thief/peer/floor_tolerance.py:71-91 | under the other law nothing counts as a break, and a frame is refused exactly when the trust was lost before or the envelope latches now |
| `Perception.ForeignHeadIsTrue` | src/p2p_thief/peer/floor_tolerance.py:71-91 | a head pinned under that law is the rival's true cell |
| `Perception.LawfulFrameAccepted` | src/p2p_thief/peer/perception.py:124-147 | a frame the law explains is accepted, clears the streak, and a unique head is the explaining emitter |
| `Perception.HeadExactly` | src/p2p_thief/peer/floor_tolerance.py:86-103 | under either law a cell is pinned exactly when it alone explains the transition |
| `Perception.SilenceIsAccepted` | src/p2p_thief/peer/floor_tolerance.py:65-70 | an all-zero frame costs a trusted rival nothing, and the census tells it from a reading |
| `Perception.EveryFrameBooked` | src/p2p_thief/peer/floor_tolerance.py:110-126 | over any stream every frame is counted as seen or empty, and booked once: as refused under its own turn, or with what its trail said |
| `Flooring.AcceptedExactly` | src/p2p_thief/peer/perception.py:124-147 | a frame is accepted if and only if the rival is trusted, the frame is silent or one deposit explains it with faded residues put back when needed, and no open saturated cell lies out of reach |
| `Flooring.ZeroedFrameAccepted` | src/p2p_thief/peer/floor_tolerance.py:29-51 | an honest update with residues up to epsilon zeroed is accepted with the streak at zero, a head it pins is the true emitter, and it is recorded exactly when residues had to be restored |
| `Flooring.FlooredExactly` | src/p2p_thief/peer/floor_tolerance.py:37-51 | the cells recorded as floored are none when the frame is explained as it stands, and otherwise exactly the restored residues |
| `Flooring.LargeResidueRefused` | src/p2p_thief/peer/floor_tolerance.py:41-51 | a cell zeroed from above both epsilon and the tolerance leaves the frame refused as a break of the law |
| `Perception.OneFrameCostsOne` | src/p2p_thief/peer/perception.py:137-147 | any single frame within the envelope costs at most one break and one refusal |
| `Perception.HonestFrameAccepted` | src/p2p_thief/peer/perception.py:124-176 | the next frame of an honest trail leaves nothing refused, and a head it pins is the true cell |
| `Perception.OneMoreFrame` | src/p2p_thief/peer/perception.py:137-147 | the streak and refusal bounds survive one more frame of a stream with spaced corruption |
| `Perception.CorruptFramesRecover` | src/p2p_thief/peer/perception.py:137-147 | corrupted frames within the envelope, pairwise three apart or the first two, cost at most two refusals each in total and never latch |
| `Perception.LostForGood` | src/p2p_thief/peer/perception.py:128-147 | once the trust is lost, every later frame of any stream is refused |
| `Counterexamples.SpacingIsExact` | src/p2p_thief/peer/floor_tolerance.py:104-107 | for any set of corrupted frames: some otherwise honest stream within the envelope loses its trust if and only if two of them are less than three apart and are not the first two |
| `Evidence.DwellSaturates` | src/p2p_thief/domain/evidence.py:34-40 | ten turns at one cell drive every in-board saturating offset to exactly 0.9, from any field in range |
| `Evidence.NineTurnsFallShort` | src/p2p_thief/domain/evidence.py:34-40 | nine turns from silence leave a weakest saturating offset below the clamp |
| `Evidence.Window` | src/p2p_thief/domain/evidence.py:83-90 | exactly the passable cells at a saturating offset |
| `Evidence.PlateauIsWindow` | src/p2p_thief/domain/evidence.py:72-90 | a dweller's plateau from silence is exactly its clipped window |
| `Evidence.PlateauOrigin` | src/p2p_thief/domain/evidence.py:93-117 | returns the cell that is in the plateau, fits it well enough and leads every other by the margin, and nothing when no cell does |
| `Evidence.PinnedExactly` | src/p2p_thief/domain/evidence.py:83-117 | the pin in numbers: four cells, a Jaccard fit of nine tenths with the cells within two rows and columns but the far corners, and a lead of a twentieth |
| `Evidence.DwellerPinnedOrNobody` | src/p2p_thief/domain/evidence.py:93-117 | a dweller off the walls is pinned to its own cell or to none, and exactly when is said |
| `Evidence.WalledDwellerMisplaced` | src/p2p_thief/domain/evidence.py:93-117 | a dweller standing on a wall can be pinned to another cell |
| `Decode.DecodeReach` | src/p2p_thief/domain/evidence.py:49-69 | the loop over the rungs finds the tightest reach within the horizon |
| `Decode.ReachZeroIsSaturated` | src/p2p_thief/domain/evidence.py:72-80 | a reading decodes to reach 0 exactly when it stands at the clamp |
| `Decode.FreshDepositDecodes` | src/p2p_thief/domain/evidence.py:49-69 | a fresh deposit decodes to exactly its Manhattan distance from the emitter |
| `Decode.FadedCentreDecodes` | src/p2p_thief/domain/evidence.py:49-69 | a centre deposit that faded for up to eight turns decodes to no more than that many steps |
| `Decode.DecodesExactly` | src/p2p_thief/domain/evidence.py:41-69 | a reading decodes within n steps exactly when it is a centre no more than n rounded turns old, or fresh at a place of the kernel within n steps of its emitter; nothing decodes beyond eight |
| `Decode.EvidenceSupport` | src/p2p_thief/domain/evidence.py:120-137 | evidence is never negative and lies exactly on the open cells within the reach of some decodable reading |
| `Decode.EvidenceConserves` | src/p2p_thief/domain/evidence.py:120-137 | the evidence adds up to the readings that have an open cell in reach |
| `OwnState.Serialize` | src/p2p_thief/wire/codec.py:27-35 | the sparse form holds exactly the positive readings |
| `OwnState.SparseRoundTrip` | src/p2p_thief/wire/codec.py:27-35 | absorbing a serialized field restores it if and only if it has no negative reading |
| `OwnState.TrailCrosses` | src/p2p_thief/wire/codec.py:27-35 | an honest trail crosses the wire unchanged |
| `OwnState.ReceivedScent.Absorb` | src/p2p_thief/wire/own_state.py:37-44 | the loop over the sparse snapshot yields the dense field, ignoring cells off the board |
| `OwnState.State.ApplyOwnAction` | src/p2p_thief/wire/own_state.py:87-105 | the whole new own state, or the refusal and no change |
| `OwnState.State.NoteRivalHalfTurn` | src/p2p_thief/wire/own_state.py:107-111 | the token comes back, refused when already held |
| `OwnState.State.NoteRivalBarrier` | src/p2p_thief/wire/own_state.py:113-128 | absorbs a declared wall: off-board refused, duplicate ignored, quota breach raised |
| `OwnState.State.CloseFullTurn` | src/p2p_thief/wire/own_state.py:130-135 | own field, boundary list and clock advance together |
| `HiddenTurns.HiddenRuntime.Seal` | src/p2p_thief/wire/hidden_exchange.py:21-38 | appends one record whose payload anchors the own digest, and returns its commit |
| `HalfTurnLaws.PlayedExactly` | src/p2p_thief/wire/own_state.py:87-105 | a half-turn is played exactly on the own token, and as a step to a free cell, none at all, or a police wall under the quota within one step on a free cell |
| `HalfTurnLaws.HeardExactly` | src/p2p_thief/wire/own_state.py:107-128 | a half-turn is heard exactly from the other side while it holds the token, with no wall off the board or past the quota; the quota alone is the rival's breach |
| `HalfTurnLaws.VerdictExactly` | src/p2p_thief/wire/hidden_turns.py:67-105 | the outcome after any heard half-turn, and when it is answered at once |
| `HiddenTurns.HiddenRuntime.Act` | src/p2p_thief/wire/hidden_turns.py:34-40 | the action, the thief's round clock, and whether it walked into capture or survived |
| `HiddenTurns.HiddenRuntime.TakeMyHalfTurn` | src/p2p_thief/wire/hidden_turns.py:23-56 | the whole new peer and the whole message of one half-turn |
| `HiddenTurns.HiddenRuntime.SendConcede` | src/p2p_thief/wire/hidden_turns.py:109-122 | the sealed action-free closure, leaving clock and board alone |
| `HiddenTurns.HiddenRuntime.AbsorbMessage` | src/p2p_thief/wire/hidden_turns.py:67-76 | barrier, scent, token and the police boundary enter the state in order |
| `HiddenTurns.HiddenRuntime.AnswerTruthfully` | src/p2p_thief/wire/hidden_turns.py:94-105 | a true claim or a law capture is conceded at once, anything else answered honestly later |
| `HiddenTurns.HiddenRuntime.Send` | src/p2p_thief/wire/hidden_turns.py:41-55 | one sealed record, the message with its public part, and the outcome the half-turn decided |
| `HiddenTurns.HiddenRuntime.DrawVerdict` | src/p2p_thief/wire/hidden_turns.py:90-93 | a win claim or the police boundary ends the game in survival |
| `FullRuntime.FullPeer.Receive` | src/p2p_thief/wire/hidden_turns.py:61-93 | the message is booked, absorbed, and moves trust and belief unless it is a concession; then the verdict is drawn |
| `FullRuntime.FullPeer.TakeTheirHalfTurn` | src/p2p_thief/wire/hidden_turns.py:59-106 | the whole new peer, its belief, and the optional concession of one received half-turn, or the refusal |
| `TurnLoop.QuotaAlwaysHolds` | src/p2p_thief/wire/own_state.py:113-128 | whatever is played and heard, honest or not, no peer ever holds more walls than the quota |
| `FullRuntime.OldWallIsNoNews` | src/p2p_thief/wire/hidden_turns.py:61-89 | a declared wall that already stood leaves the belief as if it had not been declared; a fresh one is evidence |
| `TurnLoop.WaitTurn` | src/p2p_thief/wire/hidden_runtime.py:94-117 | skips own-role echoes and files the first foreign message, a caught final under the current expectation |
| `TurnLoop.ThroughNoise` | src/p2p_thief/wire/hidden_runtime.py:94-117 | the awaited message is handed over through any echoes and re-deliveries |
| `TurnLoop.DeliveredThroughNoise` | src/p2p_thief/wire/hidden_runtime.py:94-117 | in every state of every honest run the message in flight reaches its receiver through that noise |
| `NoisyRuns.NoisyIsPlay` | src/p2p_thief/wire/hidden_runtime.py:94-177 | over a raw stream of messages, echoes and copies the loop does what it does over the messages alone |
| `NoisyRuns.HeardNumbered` | src/p2p_thief/wire/hidden_turns.py:23-122 | what a peer hears along a run carries consecutive numbers, and only the last message may concede |
| `NoisyRuns.NoisyRun` | src/p2p_thief/wire/hidden_runtime.py:94-177 | in every honest run a peer that reads such a stream ends in the very state it has in that run |
| `TurnLoop.HeardIsNoise` | src/p2p_thief/wire/hidden_runtime.py:94-117 | once heard, a message is itself only noise while the game goes on |
| `TurnLoop.PlayGame` | src/p2p_thief/wire/hidden_runtime.py:154-177 | the alternation loop; a refusal or a missing message ends in a technical loss |
| `TurnLoop.RunIsTwoLoops` | src/p2p_thief/wire/hidden_runtime.py:154-177 | along every run each peer's state is what its own loop computes from its choices and what it hears |
| `StepEffects.ThiefPlays` | src/p2p_thief/wire/hidden_turns.py:23-56 | an honest thief's half-turn is a move, never ends in a pocket, ticks the clock, says whether it survived, carries the pending answer, and seals what it says over the own digest |
| `StepEffects.PolicePlays` | src/p2p_thief/wire/hidden_turns.py:23-56 | an honest police half-turn is one legal move or wall, with a claim exactly on a gated move, of its own cell, and seals what it says over the own digest |
| `StepEffects.PoliceHearsStep` | src/p2p_thief/wire/hidden_turns.py:59-106 | the police peer that hears a step closes its round, observes the frame and draws the boundary verdict, and answers nothing |
| `StepEffects.ThiefHearsPolice` | src/p2p_thief/wire/hidden_turns.py:59-122 | the thief that hears the police concedes exactly on a true claim or a law capture, naming its own cell, and otherwise plays on owing a denial of exactly that claim, or nothing |
| `Answers.DenialsAnswerTheClaim` | src/p2p_thief/wire/claims.py:14-17 | in every honest run the thief's next message repeats the claim of the last police message it heard and denies it, and answers nothing when that made none |
| `Answers.DenialsAreAlike` | src/p2p_thief/wire/hidden_turns.py:94-99 | two thieves that go on after one police message owe one and the same answer, wherever they stand |
| `Agreement.NextStepped` | src/p2p_thief/wire/hidden_turns.py:23-122 | in each phase one peer alone can step, in one way only, with the effect and the next phase said |
| `Agreement.NextInv` | src/p2p_thief/wire/hidden_turns.py:23-122 | every step leads from one phase of the protocol to the next |
| `Agreement.NotStuck` | src/p2p_thief/wire/hidden_runtime.py:164-169 | until both sides have finished some step is enabled |
| `Agreement.TwoPeerAgreement` | src/p2p_thief/wire/hidden_turns.py:23-122 | one token or message, agreeing walls and clocks, one verdict, at most 2m - 1 messages, in every run |
| `History.NextHistory` | src/p2p_thief/wire/hidden_exchange.py:21-71 | the sealed halves and the heard halves remain the two halves of one game history |
| `HonestScent.NoFalseRefusal` | src/p2p_thief/peer/perception.py:124-176 | in every honest run nothing is refused, trust holds, and each pinned head is the rival's true cell at that turn |
| `Reveals.VerifyRevealsInPlace` | src/p2p_thief/wire/audit_foreign.py:78-104 | verified exactly when all reveals are clean and every live commit is re-proven; records then hold what their commits sealed |
| `Reveals.HonestRevealAccepted` | src/p2p_thief/wire/audit_foreign.py:78-104 | an honest reveal set is accepted in any order and with extra clean records |
| `Reveals.RevealBinding` | src/p2p_thief/wire/audit_foreign.py:78-104 | an accepted reveal shows exactly the sealed payload, and any two accepted reveals agree |
| `Sorting.SortStable` | src/p2p_thief/wire/audit.py:89-95 | records of one (step, role) key keep their order |
| `Sorting.OrderIndependent` | src/p2p_thief/wire/audit.py:89-95 | with distinct keys the sorted list does not depend on the input order |
| `Audit.Apply` | src/p2p_thief/wire/audit.py:55-71 | the revealed action changes the board or one position exactly as the physics allows |
| `Audit.Settle` | src/p2p_thief/wire/audit.py:118-145 | strict law captures, provisional landings and the thief's clock after one entry |
| `Audit.ReconstructGame` | src/p2p_thief/wire/audit.py:74-159 | the replay loop with its board, positions, clock and pending capture computes the specified reconstruction |
| `Audit.OrderFree` | src/p2p_thief/wire/audit.py:86-95 | with distinct (step, role) keys the replay does not depend on record order |
| `ReplaySoundness.PlayedPhysics` | src/p2p_thief/wire/audit.py:55-145 | along any legal game: bounds, quota, clock within the limit, an unsealed thief unless the police just sealed it |
| `ReplaySoundness.ReplayDescribed` | src/p2p_thief/wire/audit.py:96-145 | the replay of any list is the standing of a game in progress, of a finished and conceded game, or a refusal |
| `ReplaySoundness.AuditAcceptsWholeGames` | src/p2p_thief/wire/audit.py:74-159 | accepted if and only if every live declaration names the barrier and the hint of the sealed action and the sorted records are one whole legal game and then only concessions; the result is that game's verdict, over entries that carry the claims declared |
| `ReplaySoundness.EntriesListed` | src/p2p_thief/wire/audit.py:86-95 | the entries are the replayable records in their order, none missing, each with its payload and with the claim declared live beside it |
| `HalfTurnLaws.FalseWordsVoidTheAudit` | src/p2p_thief/wire/declared.py:20-35 | once a message is heard that declared another barrier or hint than it sealed, the replay is refused, whatever else was played, heard and revealed |
| `ReplaySoundness.ReplaySound` | src/p2p_thief/wire/audit.py:74-159 | capture was made by a police half-turn, survival means the full clock, only thief STAYs follow the end |
| `ReplaySoundness.RecordOrderFree` | src/p2p_thief/wire/audit.py:86-95 | the verdict does not depend on which list a record came in, or where |
| `Completeness.NextCoupled` | src/p2p_thief/wire/audit.py:96-145 | every step keeps the replay of the log coupled to the lived game, or stopped at a misread STAY |
| `Completeness.HalvesSortToLog` | src/p2p_thief/wire/audit.py:89-95 | an auditor's own half and the opened rival half, sorted, are the game history |
| `Completeness.AuditsAreReplays` | src/p2p_thief/wire/audit.py:74-159 | each auditor's verdict is the replay of the one history |
| `Completeness.ClaimsOnlyRefuse` | src/p2p_thief/wire/audit.py:119-125 | dropping live claims can only remove refusals |
| `Completeness.AuditCompleteness` | src/p2p_thief/wire/audit.py:74-159 | for every finished honest run both audits agree with the lived game if and only if no thief STAY followed an unclaimed co-location, and then they agree with each other and the true digest |
| `Counterexamples.SurvivalReadAsCapture` | src/p2p_thief/wire/audit.py:104-107 | a concrete run in which both lived a survival and neither audit agrees |
| `Dispute.OwnBarrierTimeline` | src/p2p_thief/wire/dispute.py:16-25 | the loop collects step and cell of every barrier we sealed, in order |
| `Dispute.UnconcededCapture` | src/p2p_thief/wire/dispute.py:33-65 | nothing after a capture; otherwise the earliest revealed position that the walls placed by its step cover or seal, or nothing when there is none |
| `Dispute.FindingSays` | src/p2p_thief/wire/dispute.py:47-65 | a finding names a revealed step and cell and the walls placed by then, and says covered exactly when they hold the cell; otherwise they close every way out of it |
| `Dispute.AccusedExactlyWhenSealed` | src/p2p_thief/wire/dispute.py:33-65 | in every finished honest run a reveal accuses exactly when it is the last and the walls decided the game there; a survivor is never accused |
| `Dispute.HonestRevealsFindNothing` | src/p2p_thief/wire/dispute.py:33-65 | over any honest reveals of a finished honest run, in any order and number, the check finds nothing |
| `Resume.PeerProcess.Rearm` | src/p2p_thief/wire/hidden_resume.py:59-85 | the restored process - peer, consumed keys, last message, opponent and its id - and its half-turn, or the barrier, digest or missing-steps refusal |
| `Resume.RearmRefuses` | src/p2p_thief/wire/hidden_resume.py:59-85 | a snapshot is taken up exactly when its barriers are open cells each once, its digest fits what they rebuild, and it carries per-sender steps; otherwise the refusal names the first of these that fails |
| `Resume.ReplaceBarriers` | src/p2p_thief/wire/hidden_resume.py:65-66 | re-placing the barriers one by one gives the walls or the board's own refusal |
| `Resume.ListedRebuilds` | src/p2p_thief/wire/hidden_resume.py:47-66 | the sorted barrier list of a board rebuilds exactly its walls |
| `Resume.ResumeRestores` | src/p2p_thief/wire/hidden_resume.py:30-85 | rearming a fresh process from a snapshot gives back the process, but for its scent trust and what was not yet handed over |
| `Resume.CrashResume` | src/p2p_thief/wire/hidden_resume.py:30-85 | that round trip holds in every state of every honest run whose game is still open |
| `ResumedGame.RunConserves` | src/p2p_thief/wire/hidden_exchange.py:44-71 | along a run what one side sends is what the other hears, in that order, and what is still in flight |
| `ResumedGame.LastSentIsLostOrHeard` | src/p2p_thief/wire/hidden_resume.py:107-118 | the rival's last sent message is the one in flight, or else the last one heard |
| `ResumedGame.ResumedGameIsTheSame` | src/p2p_thief/wire/hidden_resume.py:30-118 | a process crashed at any open point and rearmed from its snapshot plays the run to the same end, but for its trust, over the rival's re-send and any other noise |
| `ResumedScent.ResumedTrust` | src/p2p_thief/peer/perception.py:124-147 | after a resume at any turn of an honest trail the trust holds exactly while every frame lies inside the restarted envelope, with nothing refused; otherwise every frame from the first outside on is refused |
| `ResumedScent.WanderedOff` | src/p2p_thief/peer/perception.py:124-147 | a frame whose unwalled head is outside the restarted envelope is outside it |
| `ResumedScent.HonestRivalDisbelieved` | src/p2p_thief/wire/hidden_resume.py:59-85 | a concrete honest game: the resumed police process loses its trust over the frame that the uncrashed one believes |
| `Receiver.SealedExchange.NextMessage` | src/p2p_thief/peer/sealing.py:51-86 | the receive loop returns and leaves behind what the specification says |
| `Receiver.NextSafe` | src/p2p_thief/peer/sealing.py:51-86 | buffer keyed correctly, disjoint from the consumed keys, within the cap; only the expected key is handed over and never twice |
| `Receiver.FirstDecides` | src/p2p_thief/peer/sealing.py:63-86 | the first delivery that is neither a plain duplicate nor early with room decides: a conflicting duplicate is a conflict, the expected message is handed over, anything else floods; if there is none the wait times out |
| `Receiver.ExactlyOnce` | src/p2p_thief/peer/sealing.py:51-86 | over any arrivals successive calls hand over the expected keys, each once, in order |
| `Receiver.NextDelivers` | src/p2p_thief/peer/sealing.py:51-86 | while fewer than cap undelivered keys lie ahead, an expected message that was delivered is handed over and the flood error never fires |
| `Receiver.RefinesFifo` | src/p2p_thief/peer/sealing.py:51-86 | over a duplicating, reordering transport the receiver is a FIFO channel |
| `Certificate.SupportFacts` | src/p2p_thief/strategy/endgame.py:78-82 | the support is every board cell whose mass is at least the threshold, each once |
| `Certificate.SurvivalCertificate.Tick` | src/p2p_thief/strategy/endgame.py:123-128 | one node counted; unspent means within the cap, spent means over it or past the deadline at a poll |
| `Certificate.SurvivalCertificate.SearchMove` | src/p2p_thief/strategy/endgame.py:130-159 | without a budget error, the answer is the plain game value of the move |
| `Certificate.SurvivalCertificate.SearchNode` | src/p2p_thief/strategy/endgame.py:161-171 | the memoised answer is the plain game value, and the memo stays exact although its key omits the quota |
| `Certificate.SurvivalCertificate.SafeFromAll` | src/p2p_thief/strategy/endgame.py:106-119 | the intersection over the support holds exactly the moves that survive from every support cell; an answer comes within the node cap, and the search never counts more than one node past it |
| `Certificate.SurvivalCertificate.Lock` | src/p2p_thief/strategy/endgame.py:96-121 | a certified answer is the best-ranked such move; a refusal means it does not apply or no such move exists; an abort means the node cap or the deadline was passed |
| `CertificateGame.SearchSound` | src/p2p_thief/strategy/endgame.py:130-171 | a move the search accepts forces survival in the engine |
| `CertificateGame.SearchComplete` | src/p2p_thief/strategy/endgame.py:130-171 | with threshold within max moves, a move that forces survival in the engine is accepted |
| `CertificateGame.StrategyWins` | src/p2p_thief/domain/engine.py:70-115 | where survival is forced there is one thief strategy that reaches it against every legal line of the cop |
| `CertificateGame.CertifiedMoveSurvives` | src/p2p_thief/strategy/endgame.py:96-171 | a certified move, from every board cell believed at least the threshold and against every legal line of moves and walls, ends in survival |
| `CertificateGame.CertificateExact` | src/p2p_thief/strategy/endgame.py:96-171 | an unaborted answer is the first of N, S, E, W, STAY that forces survival from every board cell believed at least the threshold, in the game whose turn limit does not come first, and none exactly when no move does or the certificate does not apply |
| `CertificateGame.EarlyLimitRefused` | src/p2p_thief/strategy/endgame.py:102-104 | with an earlier turn limit, a game the engine reaches in one action holds a forced survival while the search refuses every move |
| `Pathfind.WithinIsPath` | src/p2p_thief/domain/pathfind.py:15-30 | the layers of the search are exactly the paths through passable cells |
| `Pathfind.BfsDistances` | src/p2p_thief/domain/pathfind.py:15-30 | records exactly the reachable cells, each at its shortest distance |
| `Pathfind.WallsShrinkRegion` | src/p2p_thief/strategy/cage_forecast.py:68-73 | added walls never enlarge the region nor shorten a distance |
| `CageForecast.CombinationsCover` | src/p2p_thief/strategy/cage_forecast.py:188-189 | the choices of one size cover every smaller wall set |
| `CageForecast.HasRun` | src/p2p_thief/strategy/cage_forecast.py:76-91 | the run scanner finds a line exactly when some barrier on it is followed by two more |
| `CageForecast.CompletionWalls` | src/p2p_thief/strategy/cage_forecast.py:94-104 | the open cells of every declared cut, when there is one and the quota affords it |
| `CageForecast.CutsCompleted` | src/p2p_thief/strategy/cage_forecast.py:94-114 | the open cells of the lines with three barriers in a row are walled off, all or none, exactly when there are some and the quota affords them |
| `CageForecast.CompletedRegion` | src/p2p_thief/strategy/cage_forecast.py:107-114 | the room left once every declared cut is completed |
| `CageForecast.KWallRegion` | src/p2p_thief/strategy/cage_forecast.py:177-196 | the worst room over the completed cuts and the enumerated sets; the early exit does not change it |
| `CageForecast.ForecastCovers` | src/p2p_thief/strategy/cage_forecast.py:177-196 | the forecast bounds every cage of at most the clamped size drawn from one believed cop's capped site list |
| `CageForecast.ForecastIsLeast` | src/p2p_thief/strategy/cage_forecast.py:177-196 | the forecast is the least room over all such cages and the completed cuts, and is attained |
| `CageSites.SitesComplete` | src/p2p_thief/strategy/cage_forecast.py:52-65 | the site list holds every feared place if and only if no more than fourteen cells are open, in reach, and within three steps, at an edge or beside a barrier |
| `CageSites.SlackCapIsExact` | src/p2p_thief/strategy/cage_forecast.py:177-196 | if no more qualify for any cop, the forecast is the least room over every feared cage and the completed cuts |
| `CageSites.ForecastCoversEveryCage` | src/p2p_thief/strategy/cage_forecast.py:177-196 | the forecast bounds every feared cage as long as nothing that the cap drops can be walked to |
| `CageSites.BlindForecast` | src/p2p_thief/strategy/cage_forecast.py:177-196 | with no kept site in reach and no cut to complete, it bounds every feared cage if and only if no dropped site is in reach |
| `CageSites.CapHidesTheCut` | src/p2p_thief/strategy/cage_forecast.py:52-65 | a 7x7 board with the configured reach on which the forecast is the whole region though a feared wall cuts it |
| `CageForecast.ForecastMonotone` | src/p2p_thief/strategy/cage_forecast.py:177-196 | at least one, non-increasing in k and in the quota, and unique |
| `Belief.NormalisedIsDistribution` | src/p2p_thief/domain/belief.py:46-52 | normalising a non-negative grid gives a distribution and loses no positive cell |
| `Spreading.DiffusionSpreads` | src/p2p_thief/domain/belief.py:54-69 | after an unnamed step each open cell holds its own equal share and those of its open neighbours, in proportion, and no barrier holds anything |
| `Spreading.MotionTranslates` | src/p2p_thief/domain/belief.py:106-125 | after a named step a cell holds what stood behind it, if it is open, and its own if the step from it is blocked |
| `Spreading.RefusedFrameMovesOnly` | src/p2p_thief/peer/perception.py:108-147 | after a refused frame the belief has moved, as the hint names or by one unnamed step, and nothing else entered it |
| `Belief.DiffusionConserves` | src/p2p_thief/domain/belief.py:54-68 | diffusion conserves all mass that is not on a barrier |
| `Belief.MotionConserves` | src/p2p_thief/domain/belief.py:106-124 | a named step conserves all mass |
| `Belief.BeliefMap.Normalize` | src/p2p_thief/domain/belief.py:46-52 | divide by the total, or reset to uniform when nothing is left |
| `Belief.BeliefMap.Diffuse` | src/p2p_thief/domain/belief.py:54-69 | each unwalled cell spreads equal shares over itself and its passable neighbours |
| `Belief.BeliefMap.ObserveMotion` | src/p2p_thief/domain/belief.py:106-125 | the posterior translates by the named step, blocked mass staying put |
| `FullPerception.Perceiver.ObserveScent` | src/p2p_thief/domain/belief.py:71-80 | every cell weighed by the floor plus its decoded evidence; between open cells of positive prior the odds rise exactly with more evidence and stay with equal evidence, and barriers end empty |
| `Following.SpikeRaises` | src/p2p_thief/domain/belief.py:71-80 | a lone fresh reading on an open cell of positive prior strictly raises that cell while another open cell is believed |
| `FullPerception.ExposedTalkRepels` | src/p2p_thief/domain/belief.py:82-97 | with honest talk weighing more than a lie, a region the scent bears out gains odds and an exposed one loses them |
| `Posterior.PosteriorOdds` | src/p2p_thief/peer/perception.py:148-192 | after an accepted frame the odds of two open cells are those of the moved belief times what scent, talk, plateau and the gated head or claim say of each |
| `Posterior.WallMultiplies` | src/p2p_thief/domain/belief.py:152-167 | a declared wall multiplies the odds of the open cells beside it by twenty-five and is emptied; without one nothing changes |
| `FullPerception.Perceiver.CheckRegion` | src/p2p_thief/domain/hint_regions.py:33-37 | a region is a lie exactly when none of its cells reads fresh |
| `FullPerception.Perceiver.ObserveTalk` | src/p2p_thief/peer/perception.py:150-162 | the region the talk names, if any, weighed by the reputation weights, swapped when the scent exposes a lie |
| `FullPerception.Perceiver.ObservePlateau` | src/p2p_thief/domain/belief.py:127-140 | the cell that clearly explains the plateau boosted, or nothing when none does |
| `Belief.BeliefMap.ObserveBarrier` | src/p2p_thief/domain/belief.py:152-167 | the open neighbours of a declared wall boosted and the wall emptied, or nothing when it has none |
| `FullPerception.Perceiver.Observe` | src/p2p_thief/peer/perception.py:97-192 | the whole observation: the new trust, and the belief after movement, wall, and for an accepted frame scent, talk, plateau and the head or agreeing claim |
| `FullPerception.PinnedOnce` | src/p2p_thief/domain/evidence.py:93-117 | no plateau is clearly explained by two cells |
| `FullPerception.SightingIsFair` | src/p2p_thief/peer/perception.py:97-192 | whatever frame and talk arrive, what the observation hands the belief is evidence it can use |
| `Belief.PerceivedKeeps` | src/p2p_thief/peer/perception.py:97-192 | one observation keeps a distribution with mass on the true cell, unless the rival just walled it |
| `Belief.NeverLoses` | src/p2p_thief/domain/belief.py:46-167 | from the uniform prior, over any path and evidence with truthful echoes |
| `Belief.WalledOwnCellLost` | src/p2p_thief/domain/belief.py:152-167 | a rival that walls its own cell loses all mass there if and only if the wall has an open neighbour and mass is left elsewhere |
| `BeliefRuns.BeliefNeverLosesTheThief` | src/p2p_thief/peer/perception.py:97-192 | in every honest run the police peer's belief keeps mass on the thief's true cell after every step heard |
| `BeliefRuns.PerceptionNeverLosesTheThief` | src/p2p_thief/peer/perception.py:97-192 | the same for the evidence, plateau and head that the peer draws from the frames with the trust it really holds; every frame of the run is accepted |

## Left out

- SHA-256, canonical JSON, nonce generation and the foreign hash constructions: the commit is an ideal injective constructor.
- Message parsing and building beyond the fields the handlers read; sparse scent keys are cells rather than strings.
- Transport, threads, deadlines, the watchdog, controls and re-push; a wait is an arbitrary arrival sequence.
- Scent decay other than 0.10.
- `Perception.Observer.Observe`: the scent trust and trail head only; the belief half is in `FullPerception.Perceiver.Observe`.
- `FullPerception.Perceiver.Observe`: the hint is given by what parsing finds in it, and the reputation weights are an input; last-hint bookkeeping is not modelled.
- `FullRuntime.FullPeer.Receive`: the hint enters as what parsing finds in it, and the last hint is not kept.
- `FullRuntime.FullPeer.TakeTheirHalfTurn`: as for `FullRuntime.FullPeer.Receive`.
- `TurnLoop.PlayGame`: negotiation, the step-zero seal, checkpoints and the phase machine are not part of the loop.
- The branch of the end-of-game report that skips the replay when the rival's records do not parse as ours; it happens in an honest game only when no rival record exists.
- The other checks of a foreign rival's records (`continuity_ok`, `movement_ok`) and the report that combines them.
- `doctrine_room` and `arm_builder_escape`, which choose a move from the forecast by heuristic rank.
- The bookletter commit-then-reveal exchange of two messages per half-turn; the hidden wire sends one.
- `Resume.CrashResume`: the belief map is not in the snapshot and is not part of the process modelled there; a resumed peer starts it over from the uniform prior.
- File handling, integrity hash and control handshake of the crash snapshot; of the opponent agreement only the ids are read.
- Brains, learning, hint text, deception, profiling, GUI, CLI, series bookkeeping and configuration loading.
- Floating-point rounding: readings and masses are reals.
