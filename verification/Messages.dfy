/** What crosses the wire and what is sealed.  The commit is an ideal one:
    constructor Seal is injective and no receiver looks inside it. */
module Messages {
  import opened Primitives
  import opened OwnState

  /** The mandatory closing words of the thief's concession. */
  const FINAL_CAUGHT_HINT := "You got me - fair catch."

  /** A sealed half-turn, or a typed system record such as the step-zero
      declaration, which replays nothing. */
  datatype Payload =
    | Step(step: nat, role: Role, subGame: int, digest: Digest, action: Action, hint: string, verdict: bool)
    | Typed(tag: string, role: Role)

  datatype Commit = Seal(payload: Payload, nonce: nat)

  /** What was said openly beside a commit. */
  datatype Declared = Declared(barrier: Option<Cell>, claim: Option<Cell>, hint: Option<string>)

  datatype Record = Record(
    commit: Commit, payload: Option<Payload>, nonce: Option<nat>, declared: Option<Declared>)

  datatype Response = Response(claim: Cell, caught: bool)

  datatype Message = Message(
    step: nat, sender: Role, hint: string, smell: Sparse, commit: Commit,
    barrier: Option<Cell>, claim: Option<Cell>, response: Option<Response>, win: bool)
  {
    predicate Caught() { response.Some? && response.value.caught }
  }

  /** A record of one's own: payload, nonce and commit, nothing declared. */
  function Sealed(payload: Payload, nonce: nat): Record {
    Record(Seal(payload, nonce), Some(payload), Some(nonce), None)
  }

  /** What a receiver keeps of a message until the audit. */
  function Live(m: Message): Record {
    Record(m.commit, None, None, Some(Declared(m.barrier, m.claim, Some(m.hint))))
  }
}
