/** The tamper criterion over a rival's reveals: every revealed record recomputes
    its commit, and every commit received live is re-proven by one of them. */
module Reveals {
  import opened Primitives
  import opened Messages

  predicate CommitClean(r: Record) {
    r.payload.Some? && r.nonce.Some? && r.commit == Seal(r.payload.value, r.nonce.value)
  }

  predicate AllClean(rs: seq<Record>) { forall i :: 0 <= i < |rs| ==> CommitClean(rs[i]) }

  predicate Reproven(c: Commit, rs: seq<Record>) { exists i :: 0 <= i < |rs| && rs[i].commit == c }

  predicate AllReproven(live: seq<Record>, revealed: seq<Record>) {
    forall i :: 0 <= i < |live| ==> Reproven(live[i].commit, revealed)
  }

  /** What the seal of a live record holds, now open. */
  function Opened(r: Record): Record {
    r.(payload := Some(r.commit.payload), nonce := Some(r.commit.nonce))
  }

  function OpenedAll(rs: seq<Record>): (o: seq<Record>)
    ensures |o| == |rs| && forall i :: 0 <= i < |rs| ==> o[i] == Opened(rs[i])
  {
    seq(|rs|, i requires 0 <= i < |rs| => Opened(rs[i]))
  }

  function VerifyReveals(live: seq<Record>, revealed: seq<Record>): Result<seq<Record>> {
    if AllClean(revealed) && AllReproven(live, revealed) then Ok(OpenedAll(live)) else Err(GameRule)
  }

  /** verify_reveals in place: matched payloads and nonces are merged from the
      revealed record of the same commit.  Whatever the rival sends, what a live
      record ends up with is what its commit sealed. */
  method VerifyRevealsInPlace(live: array<Record>, revealed: seq<Record>) returns (verified: bool)
    modifies live
    ensures verified <==> AllClean(revealed) && AllReproven(old(live[..]), revealed)
    ensures verified ==> live[..] == OpenedAll(old(live[..]))
    ensures forall i :: 0 <= i < live.Length ==> live[i] == old(live[..])[i] || live[i] == Opened(old(live[..])[i])
  {
    ghost var was := live[..];
    var byCommit: map<Commit, Record> := map[];
    for k := 0 to |revealed|
      invariant live[..] == was
      invariant forall j :: 0 <= j < k ==> CommitClean(revealed[j])
      invariant forall c :: c in byCommit <==> Reproven(c, revealed[..k])
      invariant forall c :: c in byCommit ==> byCommit[c].commit == c && CommitClean(byCommit[c])
    {
      if !CommitClean(revealed[k]) {
        return false;
      }
      byCommit := byCommit[revealed[k].commit := revealed[k]];
      ProvenByOneMore(revealed, k);
    }
    assert revealed[..|revealed|] == revealed;
    for k := 0 to live.Length
      invariant forall i :: 0 <= i < k ==> live[i] == Opened(was[i]) && Reproven(was[i].commit, revealed)
      invariant forall i :: k <= i < live.Length ==> live[i] == was[i]
    {
      var commit := live[k].commit;
      if commit !in byCommit {
        assert !Reproven(was[k].commit, revealed);
        return false;
      }
      var full := byCommit[commit];
      live[k] := live[k].(payload := full.payload, nonce := full.nonce);
    }
    assert live[..] == OpenedAll(was);
    return true;
  }

  lemma ProvenByOneMore(rs: seq<Record>, k: nat)
    requires k < |rs|
    ensures forall c :: Reproven(c, rs[..k + 1]) <==> Reproven(c, rs[..k]) || c == rs[k].commit
  {
    forall c ensures Reproven(c, rs[..k + 1]) <==> Reproven(c, rs[..k]) || c == rs[k].commit {
      if Reproven(c, rs[..k + 1]) {
        var i :| 0 <= i < k + 1 && rs[..k + 1][i].commit == c;
        assert i == k || rs[..k][i].commit == c;
      }
      if Reproven(c, rs[..k]) {
        var i :| 0 <= i < k && rs[..k][i].commit == c;
        assert rs[..k + 1][i].commit == c;
      }
      if c == rs[k].commit {
        assert rs[..k + 1][k].commit == c;
      }
    }
  }

  /** An honest reveal set is accepted in any order and with extra clean records:
      only the set of revealed records matters. */
  lemma HonestRevealAccepted(own: seq<Record>, live: seq<Record>, revealed: seq<Record>)
    requires AllClean(revealed)
    requires forall i :: 0 <= i < |own| ==> own[i] in revealed
    requires AllReproven(live, own)
    ensures VerifyReveals(live, revealed) == Ok(OpenedAll(live))
  {
    forall i | 0 <= i < |live| ensures Reproven(live[i].commit, revealed) {
      var j :| 0 <= j < |own| && own[j].commit == live[i].commit;
      assert own[j] in revealed;
      var k :| 0 <= k < |revealed| && revealed[k] == own[j];
    }
  }

  /** The seal binds: two accepted reveals of one live half open it identically. */
  lemma RevealBinding(live: seq<Record>, a: seq<Record>, b: seq<Record>, i: nat, p: Payload, n: nat)
    requires VerifyReveals(live, a).Ok? && i < |live|
    requires live[i].commit == Seal(p, n)
    ensures VerifyReveals(live, a).value[i] == live[i].(payload := Some(p), nonce := Some(n))
    ensures VerifyReveals(live, b).Ok? ==> VerifyReveals(live, b) == VerifyReveals(live, a)
    ensures exists k :: 0 <= k < |a| && a[k].payload == Some(p) && a[k].nonce == Some(n)
  {
    var k :| 0 <= k < |a| && a[k].commit == live[i].commit;
    assert CommitClean(a[k]);
  }
}
