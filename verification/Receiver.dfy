/** The hardened receiver of one peer: duplicates are skipped, early messages wait
    in a bounded buffer, and the expected message is handed over. */
module Receiver {
  import opened Primitives

  datatype Kind = CommitKind | RevealKind | TurnKind | OtherKind

  datatype Key = Key(kind: Kind, turn: int)

  /** A delivery: its key, the commit it carries, and the rest. */
  datatype Packet = Packet(key: Key, commit: int, body: int)

  datatype Inbox = Inbox(consumed: set<Key>, pending: map<Key, Packet>, arrivals: seq<Packet>)

  /** A played step whose stored commit a "duplicate" contradicts. */
  predicate Conflicting(stored: map<int, int>, m: Packet) {
    m.key.kind == CommitKind && m.key.turn in stored && stored[m.key.turn] != m.commit
  }

  /** _next: wait for `e`; the deadline passes when no more deliveries come. */
  function Next(cap: nat, stored: map<int, int>, x: Inbox, e: Key): (Result<Packet>, Inbox)
    decreases |x.arrivals|, if e in x.pending then 1 else 0
  {
    if e !in x.pending && x.arrivals == [] then (Err(Timeout), x)
    else
      var m := if e in x.pending then x.pending[e] else x.arrivals[0];
      var y := if e in x.pending then x.(pending := x.pending - {e}) else x.(arrivals := x.arrivals[1..]);
      if m.key in y.consumed then
        if Conflicting(stored, m) then (Err(Conflict), y) else Next(cap, stored, y, e)
      else if m.key == e then (Ok(m), y.(consumed := y.consumed + {e}))
      else if |y.pending| >= cap then (Err(Flooded), y)
      else Next(cap, stored, y.(pending := y.pending[m.key := m]), e)
  }

  /** The buffer is keyed correctly, never meets what was consumed, and is bounded. */
  predicate Valid(cap: nat, x: Inbox) {
    && (forall k :: k in x.pending ==> x.pending[k].key == k)
    && x.pending.Keys !! x.consumed
    && |x.pending| <= cap
  }

  /** Whatever arrives, in whatever order: the buffer stays valid, and a message
      handed over is the expected one and was never handed over before. */
  lemma {:induction false} NextSafe(cap: nat, stored: map<int, int>, x: Inbox, e: Key)
    requires Valid(cap, x)
    ensures var (r, y) := Next(cap, stored, x, e);
      && Valid(cap, y)
      && (r.Ok? ==> r.value.key == e && e !in x.consumed && y.consumed == x.consumed + {e})
      && (r.Err? ==> y.consumed == x.consumed)
      && (e in x.consumed ==> r.Err?)
    decreases |x.arrivals|, if e in x.pending then 1 else 0
  {
    if e in x.pending || x.arrivals != [] {
      var m := if e in x.pending then x.pending[e] else x.arrivals[0];
      var y := if e in x.pending then x.(pending := x.pending - {e}) else x.(arrivals := x.arrivals[1..]);
      Shrunk(x.pending, e);
      if m.key in y.consumed {
        if !Conflicting(stored, m) {
          NextSafe(cap, stored, y, e);
        }
      } else if m.key != e && |y.pending| < cap {
        Grown(y.pending, m.key, m);
        NextSafe(cap, stored, y.(pending := y.pending[m.key := m]), e);
      }
    }
  }

  lemma Shrunk(p: map<Key, Packet>, e: Key)
    ensures |p - {e}| <= |p|
  {
    assert (p - {e}).Keys == p.Keys - {e};
    if e in p {
      assert p.Keys == (p.Keys - {e}) + {e};
    } else {
      assert p.Keys - {e} == p.Keys;
    }
    assert |(p - {e}).Keys| == |p - {e}| && |p.Keys| == |p|;
  }

  lemma Grown(p: map<Key, Packet>, k: Key, m: Packet)
    ensures |p[k := m]| <= |p| + 1
  {
    assert p[k := m].Keys == p.Keys + {k};
    assert |p[k := m].Keys| == |p[k := m]| && |p.Keys| == |p|;
  }

  // --- what one expectation comes to, delivery by delivery -------------------------

  /** The keys waiting once the first `i` deliveries have been read. */
  function Waiting(x: Inbox, i: nat): set<Key>
    requires i <= |x.arrivals|
  {
    x.pending.Keys + (KeysOf(x.arrivals[..i]) - x.consumed)
  }

  /** The `i`-th delivery is read and set aside: a plain duplicate of something handed
      over, or something early for which there is room. */
  predicate SetAside(cap: nat, stored: map<int, int>, x: Inbox, e: Key, i: nat)
    requires i < |x.arrivals|
  {
    var m := x.arrivals[i];
    if m.key in x.consumed then
      m.key.kind == CommitKind && m.key.turn in stored ==> stored[m.key.turn] == m.commit
    else m.key != e && |Waiting(x, i)| < cap
  }

  lemma WaitingShifts(x: Inbox, x': Inbox, i: nat)
    requires i < |x.arrivals| && x'.arrivals == x.arrivals[1..] && x'.consumed == x.consumed
    requires x'.pending.Keys == x.pending.Keys + ({x.arrivals[0].key} - x.consumed)
    ensures Waiting(x', i) == Waiting(x, i + 1)
  {
    assert x.arrivals[..i + 1] == [x.arrivals[0]] + x'.arrivals[..i];
    forall k ensures k in KeysOf(x.arrivals[..i + 1]) <==> k == x.arrivals[0].key || k in KeysOf(x'.arrivals[..i]) {
      if k == x.arrivals[0].key {
        assert x.arrivals[..i + 1][0].key == k;
      }
      if k in KeysOf(x'.arrivals[..i]) {
        var j :| 0 <= j < i && x'.arrivals[..i][j].key == k;
        assert x.arrivals[..i + 1][j + 1].key == k;
      }
    }
  }

  lemma NothingWaits(x: Inbox)
    ensures Waiting(x, 0) == x.pending.Keys && |x.pending.Keys| == |x.pending|
  {
    assert KeysOf(x.arrivals[..0]) == {};
  }

  function Stepped(x: Inbox): Inbox
    requires x.arrivals != []
  {
    var m, y := x.arrivals[0], x.(arrivals := x.arrivals[1..]);
    if m.key in x.consumed then y else y.(pending := x.pending[m.key := m])
  }

  lemma StepsOver(cap: nat, stored: map<int, int>, x: Inbox, e: Key)
    requires e !in x.pending && e !in x.consumed && x.arrivals != [] && SetAside(cap, stored, x, e, 0)
    ensures e !in Stepped(x).pending && Next(cap, stored, x, e) == Next(cap, stored, Stepped(x), e)
  {
    NothingWaits(x);
  }

  lemma AsideShifts(cap: nat, stored: map<int, int>, x: Inbox, e: Key, i: nat)
    requires i + 1 < |x.arrivals|
    ensures SetAside(cap, stored, Stepped(x), e, i) <==> SetAside(cap, stored, x, e, i + 1)
  {
    hide Waiting;
    WaitingShifts(x, Stepped(x), i);
  }

  lemma Decides(cap: nat, stored: map<int, int>, x: Inbox, e: Key)
    requires e !in x.pending && e !in x.consumed && (x.arrivals != [] ==> !SetAside(cap, stored, x, e, 0))
    ensures Next(cap, stored, x, e).0 ==
      if x.arrivals == [] then Err(Timeout)
      else if x.arrivals[0].key in x.consumed then Err(Conflict)
      else if x.arrivals[0].key == e then Ok(x.arrivals[0])
      else Err(Flooded)
  {
    NothingWaits(x);
  }

  /** The first delivery that is not set aside decides, and how: a conflicting duplicate
      is evidence of tampering, the expected message is handed over, anything else finds
      the buffer full and floods it.  If all are set aside the wait times out. */
  lemma {:induction false} FirstDecides(cap: nat, stored: map<int, int>, x: Inbox, e: Key, p: nat)
    requires e !in x.pending && e !in x.consumed && p <= |x.arrivals|
    requires forall i :: 0 <= i < p ==> SetAside(cap, stored, x, e, i)
    requires p < |x.arrivals| ==> !SetAside(cap, stored, x, e, p)
    ensures Next(cap, stored, x, e).0 ==
      if p == |x.arrivals| then Err(Timeout)
      else if x.arrivals[p].key in x.consumed then Err(Conflict)
      else if x.arrivals[p].key == e then Ok(x.arrivals[p])
      else Err(Flooded)
    decreases p
  {
    hide Next, SetAside;
    if p == 0 {
      Decides(cap, stored, x, e);
    } else {
      StepsOver(cap, stored, x, e);
      forall i | 0 <= i < |x.arrivals| - 1
        ensures SetAside(cap, stored, Stepped(x), e, i) <==> SetAside(cap, stored, x, e, i + 1)
      {
        AsideShifts(cap, stored, x, e, i);
      }
      forall i | 0 <= i < p - 1 ensures SetAside(cap, stored, Stepped(x), e, i) {
        assert SetAside(cap, stored, x, e, i + 1);
      }
      FirstDecides(cap, stored, Stepped(x), e, p - 1);
    }
  }

  /** Successive expectations. */
  function ReceiveAll(cap: nat, stored: map<int, int>, x: Inbox, keys: seq<Key>): (Result<seq<Packet>>, Inbox) {
    if keys == [] then (Ok([]), x)
    else
      var (front, y) := ReceiveAll(cap, stored, x, keys[..|keys| - 1]);
      if front.Err? then (front, y)
      else
        var (last, z) := Next(cap, stored, y, keys[|keys| - 1]);
        if last.Err? then (Err(last.error), z) else (Ok(front.value + [last.value]), z)
  }

  /** The messages match the expectations, which are new and pairwise distinct. */
  ghost predicate HandedOver(ms: seq<Packet>, keys: seq<Key>, before: set<Key>, after: set<Key>) {
    && |ms| == |keys| && (forall i :: 0 <= i < |keys| ==> ms[i].key == keys[i])
    && Distinct(keys) && (forall i :: 0 <= i < |keys| ==> keys[i] !in before)
    && after == before + Done(keys)
  }

  lemma HandOneMore(ms: seq<Packet>, keys: seq<Key>, before: set<Key>, after: set<Key>, m: Packet)
    requires HandedOver(ms, keys, before, after) && m.key !in after
    ensures HandedOver(ms + [m], keys + [m.key], before, after + {m.key})
  {
  }

  lemma NothingHandedOver(before: set<Key>)
    ensures HandedOver([], [], before, before)
  {
    assert Done([]) == {};
  }

  /** Exactly once, in order: for any arrival sequence, what was handed over is
      the expected keys, one message each, none of them twice. */
  lemma {:induction false} ExactlyOnce(cap: nat, stored: map<int, int>, x: Inbox, keys: seq<Key>)
    requires Valid(cap, x)
    ensures var (r, y) := ReceiveAll(cap, stored, x, keys);
      Valid(cap, y) && (r.Ok? ==> HandedOver(r.value, keys, x.consumed, y.consumed))
  {
    hide Next, Valid, HandedOver;
    if keys == [] {
      NothingHandedOver(x.consumed);
    } else {
      var n := |keys| - 1;
      ExactlyOnce(cap, stored, x, keys[..n]);
      var (front, y) := ReceiveAll(cap, stored, x, keys[..n]);
      assert keys == keys[..n] + [keys[n]];
      if front.Ok? {
        NextSafe(cap, stored, y, keys[n]);
        var (last, z) := Next(cap, stored, y, keys[n]);
        if last.Ok? {
          HandOneMore(front.value, keys[..n], x.consumed, y.consumed, last.value);
        }
      }
    }
  }

  function KeysOf(a: seq<Packet>): (s: set<Key>)
    ensures forall k :: k in s <==> exists i :: 0 <= i < |a| && a[i].key == k
  {
    set i | 0 <= i < |a| :: a[i].key
  }

  lemma KeysOfSnoc(a: seq<Packet>, p: nat)
    requires p < |a|
    ensures KeysOf(a[..p + 1]) == KeysOf(a[..p]) + {a[p].key}
  {
    assert a[..p + 1] == a[..p] + [a[p]];
    forall k ensures k in KeysOf(a[..p + 1]) <==> k in KeysOf(a[..p]) + {a[p].key} {
      if k in KeysOf(a[..p]) {
        var i :| 0 <= i < p && a[..p][i].key == k;
        assert a[..p + 1][i].key == k;
      }
      if k == a[p].key {
        assert a[..p + 1][p].key == k;
      }
    }
  }

  /** An at-least-once transport: copies of one message are all alike (and agree
      with any commit already stored). */
  predicate Faithful(a: seq<Packet>, sent: map<Key, Packet>, stored: map<int, int>) {
    forall i :: 0 <= i < |a| ==> a[i].key in sent && a[i] == sent[a[i].key] && !Conflicting(stored, a[i])
  }

  /** While `e` is awaited, fewer than `cap` distinct undelivered keys lie ahead of it. */
  predicate Roomy(a: seq<Packet>, done: set<Key>, e: Key, cap: nat) {
    forall q :: 0 <= q < |a| && e !in KeysOf(a[..q]) ==> |KeysOf(a[..q]) - done| < cap
  }

  /** The inbox after `p` deliveries have been read and `done` handed over. */
  predicate Tracks(x: Inbox, a: seq<Packet>, sent: map<Key, Packet>, done: set<Key>, p: nat) {
    && p <= |a| && x.arrivals == a[p..] && x.consumed == done
    && x.pending.Keys == KeysOf(a[..p]) - done
    && forall k :: k in x.pending ==> k in sent && x.pending[k] == sent[k] && sent[k].key == k
  }

  /** A duplicate of something handed over is read and dropped. */
  lemma TracksSkip(x: Inbox, a: seq<Packet>, sent: map<Key, Packet>, done: set<Key>, p: nat)
    requires Tracks(x, a, sent, done, p) && p < |a| && a[p].key in done
    ensures x.arrivals[0] == a[p] && Tracks(x.(arrivals := x.arrivals[1..]), a, sent, done, p + 1)
  {
    KeysOfSnoc(a, p);
  }

  /** An early message is read and buffered. */
  lemma TracksBuffer(x: Inbox, a: seq<Packet>, sent: map<Key, Packet>, done: set<Key>, p: nat)
    requires Tracks(x, a, sent, done, p) && p < |a| && a[p].key !in done
    requires a[p].key in sent && sent[a[p].key] == a[p]
    ensures x.arrivals[0] == a[p]
    ensures Tracks(x.(arrivals := x.arrivals[1..], pending := x.pending[a[p].key := a[p]]), a, sent, done, p + 1)
  {
    KeysOfSnoc(a, p);
    assert x.pending[a[p].key := a[p]].Keys == x.pending.Keys + {a[p].key};
  }

  /** The awaited message is read and handed over. */
  lemma TracksTake(x: Inbox, a: seq<Packet>, sent: map<Key, Packet>, done: set<Key>, p: nat)
    requires Tracks(x, a, sent, done, p) && p < |a| && a[p].key !in done && a[p].key !in x.pending
    ensures x.arrivals[0] == a[p]
    ensures var x' := x.(arrivals := x.arrivals[1..], consumed := x.consumed + {a[p].key});
      Tracks(x', a, sent, done + {a[p].key}, p + 1)
  {
    KeysOfSnoc(a, p);
  }

  /** The awaited message was already in the buffer. */
  lemma TracksPop(x: Inbox, a: seq<Packet>, sent: map<Key, Packet>, done: set<Key>, p: nat, e: Key)
    requires Tracks(x, a, sent, done, p) && e in x.pending
    ensures e in KeysOf(a)
    ensures Tracks(x.(pending := x.pending - {e}, consumed := x.consumed + {e}), a, sent, done + {e}, p)
  {
    var i :| 0 <= i < p && a[..p][i].key == e;
    assert a[i].key == e;
    assert (x.pending - {e}).Keys == x.pending.Keys - {e};
  }

  /** How a call unfolds on the next delivery when the buffer cannot serve it. */
  lemma NextReads(cap: nat, stored: map<int, int>, x: Inbox, e: Key)
    requires e !in x.pending && x.arrivals != [] && !Conflicting(stored, x.arrivals[0])
    ensures var m, y := x.arrivals[0], x.(arrivals := x.arrivals[1..]);
      && (m.key in x.consumed ==> Next(cap, stored, x, e) == Next(cap, stored, y, e))
      && (m.key !in x.consumed && m.key == e ==>
            Next(cap, stored, x, e) == (Ok(m), y.(consumed := x.consumed + {e})))
      && (m.key !in x.consumed && m.key != e && |x.pending| < cap ==>
            Next(cap, stored, x, e) == Next(cap, stored, y.(pending := x.pending[m.key := m]), e))
  {
  }

  lemma RoomAhead(x: Inbox, e: Key, a: seq<Packet>, sent: map<Key, Packet>, done: set<Key>, p: nat, cap: nat)
    requires Roomy(a, done, e, cap) && Tracks(x, a, sent, done, p) && e !in done && e !in x.pending && p < |a|
    ensures |x.pending| < cap
  {
    assert e !in KeysOf(a[..p]);
    assert |x.pending| == |x.pending.Keys|;
  }

  /** One expectation over a faithful, roomy transport: the message if it was ever
      delivered, a timeout if it was not; never a flood. */
  lemma {:induction false} NextDelivers(
    cap: nat, stored: map<int, int>, x: Inbox, e: Key, a: seq<Packet>, sent: map<Key, Packet>, done: set<Key>, p: nat)
    returns (p': nat)
    requires Faithful(a, sent, stored) && Roomy(a, done, e, cap) && Tracks(x, a, sent, done, p) && e !in done
    ensures Delivered(cap, stored, x, e, a, sent, done, p')
    decreases |a| - p
  {
    p' := p;
    if e in x.pending {
      TracksPop(x, a, sent, done, p, e);
    } else if p == |a| {
      assert a[..p] == a;
    } else {
      NextReads(cap, stored, x, e);
      if a[p].key in done {
        TracksSkip(x, a, sent, done, p);
        p' := NextDelivers(cap, stored, x.(arrivals := x.arrivals[1..]), e, a, sent, done, p + 1);
      } else if a[p].key == e {
        TracksTake(x, a, sent, done, p);
        p' := p + 1;
        assert e in KeysOf(a);
      } else {
        TracksBuffer(x, a, sent, done, p);
        RoomAhead(x, e, a, sent, done, p, cap);
        p' := NextDelivers(cap, stored, x.(arrivals := x.arrivals[1..], pending := x.pending[a[p].key := a[p]]),
                           e, a, sent, done, p + 1);
      }
    }
  }

  ghost predicate Delivered(
    cap: nat, stored: map<int, int>, x: Inbox, e: Key, a: seq<Packet>, sent: map<Key, Packet>, done: set<Key>, p': nat)
  {
    var (r, y) := Next(cap, stored, x, e);
    if e in KeysOf(a) then e in sent && r == Ok(sent[e]) && Tracks(y, a, sent, done + {e}, p')
    else r == Err(Timeout)
  }

  function Done(keys: seq<Key>): set<Key> { set k | k in keys }

  /** What a reliable FIFO channel hands over for these expectations. */
  function Fifo(sent: map<Key, Packet>, keys: seq<Key>): (ms: seq<Packet>)
    requires forall i :: 0 <= i < |keys| ==> keys[i] in sent
    ensures |ms| == |keys| && forall i :: 0 <= i < |keys| ==> ms[i] == sent[keys[i]]
  {
    seq(|keys|, i requires 0 <= i < |keys| => sent[keys[i]])
  }

  ghost predicate ServesFifo(
    cap: nat, stored: map<int, int>, a: seq<Packet>, sent: map<Key, Packet>, keys: seq<Key>, p: nat)
  {
    && (forall i :: 0 <= i < |keys| ==> keys[i] in sent)
    && var (r, y) := ReceiveAll(cap, stored, Inbox({}, map[], a), keys);
       r == Ok(Fifo(sent, keys)) && Tracks(y, a, sent, Done(keys), p)
  }

  lemma FifoOneMore(
    cap: nat, stored: map<int, int>, a: seq<Packet>, sent: map<Key, Packet>, keys: seq<Key>, e: Key, p: nat, p': nat)
    requires ServesFifo(cap, stored, a, sent, keys, p) && e in KeysOf(a)
    requires Delivered(cap, stored, ReceiveAll(cap, stored, Inbox({}, map[], a), keys).1, e, a, sent, Done(keys), p')
    ensures ServesFifo(cap, stored, a, sent, keys + [e], p')
  {
    hide Next, Tracks, Done, Fifo;
    var more := keys + [e];
    assert more[..|more| - 1] == keys && more[|more| - 1] == e;
    DoneSnoc(keys, e);
    FifoSnoc(sent, keys, e);
  }

  lemma DoneSnoc(keys: seq<Key>, e: Key)
    ensures Done(keys + [e]) == Done(keys) + {e}
  {
    assert forall k :: k in keys + [e] <==> k in keys || k == e;
  }

  lemma FifoSnoc(sent: map<Key, Packet>, keys: seq<Key>, e: Key)
    requires e in sent && forall i :: 0 <= i < |keys| ==> keys[i] in sent
    ensures Fifo(sent, keys + [e]) == Fifo(sent, keys) + [sent[e]]
  {
  }

  /** Every expected message is delivered at least once, and while it is awaited
      fewer than `cap` undelivered keys lie ahead of it. */
  predicate Served(a: seq<Packet>, keys: seq<Key>, cap: nat) {
    && Distinct(keys)
    && forall i :: 0 <= i < |keys| ==> keys[i] in KeysOf(a) && Roomy(a, Done(keys[..i]), keys[i], cap)
  }

  lemma ServedPrefix(a: seq<Packet>, keys: seq<Key>, cap: nat)
    requires Served(a, keys, cap) && keys != []
    ensures var n := |keys| - 1;
      && Served(a, keys[..n], cap) && keys[n] !in Done(keys[..n])
      && keys[n] in KeysOf(a) && Roomy(a, Done(keys[..n]), keys[n], cap)
  {
    forall i | 0 <= i < |keys| - 1 ensures keys[..|keys| - 1][..i] == keys[..i] {}
  }

  /** Refinement of a reliable FIFO channel: over any faithful arrival sequence -
      duplicated and reordered at will - that delivers every expected message at
      least once and keeps fewer than `cap` undelivered keys ahead, successive
      calls return the sender's messages, each once, in order. */
  lemma {:induction false} RefinesFifo(
    cap: nat, stored: map<int, int>, a: seq<Packet>, sent: map<Key, Packet>, keys: seq<Key>)
    returns (p: nat)
    requires Faithful(a, sent, stored) && Served(a, keys, cap)
    ensures ServesFifo(cap, stored, a, sent, keys, p)
  {
    if keys == [] {
      p := 0;
      assert a[0..] == a;
    } else {
      var front, last := keys[..|keys| - 1], keys[|keys| - 1];
      ServedPrefix(a, keys, cap);
      var p1 := RefinesFifo(cap, stored, a, sent, front);
      p := OneMoreServed(cap, stored, a, sent, front, last, p1);
      assert keys == front + [last];
    }
  }

  lemma OneMoreServed(
    cap: nat, stored: map<int, int>, a: seq<Packet>, sent: map<Key, Packet>, keys: seq<Key>, e: Key, p: nat)
    returns (p': nat)
    requires Faithful(a, sent, stored) && ServesFifo(cap, stored, a, sent, keys, p)
    requires e !in Done(keys) && e in KeysOf(a) && Roomy(a, Done(keys), e, cap)
    ensures ServesFifo(cap, stored, a, sent, keys + [e], p')
  {
    var y := ReceiveAll(cap, stored, Inbox({}, map[], a), keys).1;
    p' := NextDelivers(cap, stored, y, e, a, sent, Done(keys), p);
    FifoOneMore(cap, stored, a, sent, keys, e, p, p');
  }

  class SealedExchange {
    const cap: nat
    var consumed: set<Key>
    var pending: map<Key, Packet>
    var arrivals: seq<Packet>
    var stored: map<int, int>

    constructor (cap: nat)
      requires cap >= 4
      ensures this.cap == cap && View() == Inbox({}, map[], []) && stored == map[]
    {
      this.cap := cap;
      consumed, pending, arrivals, stored := {}, map[], [], map[];
    }

    ghost function View(): Inbox
      reads this
    {
      Inbox(consumed, pending, arrivals)
    }

    method NextMessage(e: Key) returns (r: Result<Packet>)
      modifies this`consumed, this`pending, this`arrivals
      ensures (r, View()) == Next(cap, stored, old(View()), e)
    {
      while true
        invariant Next(cap, stored, View(), e) == Next(cap, stored, old(View()), e)
        decreases |arrivals|, if e in pending then 1 else 0
      {
        var m: Packet;
        if e in pending {
          m := pending[e];
          pending := pending - {e};
        } else if arrivals == [] {
          return Err(Timeout);
        } else {
          m := arrivals[0];
          arrivals := arrivals[1..];
        }
        if m.key in consumed {
          if m.key.kind == CommitKind && m.key.turn in stored && stored[m.key.turn] != m.commit {
            return Err(Conflict);
          }
        } else if m.key == e {
          consumed := consumed + {e};
          return Ok(m);
        } else if |pending| >= cap {
          return Err(Flooded);
        } else {
          pending := pending[m.key := m];
        }
      }
    }
  }
}
