/** Karn soundness when first transmissions go out in order: what a wrong sample goes back to, and so when
    every sample times the one and only send of its sequence.  And what goes wrong without that. */
module RttInOrder {
  import opened Serial
  import opened RttModel
  import opened RttKarn

  /** ids number the events' sequences without wrapping, all within half the circle; a send either
      repeats an earlier one or goes beyond all of them. */
  ghost predicate InOrder(es: seq<Event>, ids: seq<nat>, base: nat) {
    && |ids| == |es|
    && (forall i :: 0 <= i < |es| ==> base <= ids[i] < base + HALF && es[i].sn == ids[i] % MOD)
    && (forall i :: 0 <= i < |es| && es[i].Sent? ==> Repeats(es, ids, i) || Beyond(es, ids, i))
  }

  ghost predicate Repeats(es: seq<Event>, ids: seq<nat>, i: nat)
    requires i < |es| == |ids|
  {
    exists j :: 0 <= j < i && es[j].Sent? && ids[j] == ids[i]
  }

  ghost predicate Beyond(es: seq<Event>, ids: seq<nat>, i: nat)
    requires i < |es| == |ids|
  {
    forall j :: 0 <= j < i && es[j].Sent? ==> ids[j] < ids[i]
  }

  /** Sequences in the numbering compare like their numbers. */
  lemma Compare(es: seq<Event>, ids: seq<nat>, base: nat, i: nat, j: nat)
    requires InOrder(es, ids, base) && i < |es| && j < |es|
    ensures Cmp(es[i].sn, es[j].sn) == ids[i] as int - ids[j]
    ensures es[i].sn == es[j].sn <==> ids[i] == ids[j]
  {
    CmpExact(ids[i], ids[j]);
  }

  // ---- How far the acks have come ------------------------------------------------------

  /** The number acked so far, -1 before any. */
  function AckedNum(ids: seq<nat>, t: Traced): int {
    if 0 <= t.ackedBy < |ids| then ids[t.ackedBy] else -1
  }

  ghost predicate AckTrue(es: seq<Event>, t: Traced, n: nat)
    requires n <= |es|
  {
    && -1 <= t.ackedBy < n
    && (t.p.acked <==> t.ackedBy >= 0)
    && (t.p.acked ==> t.p.lastAck == es[t.ackedBy].sn)
  }

  /** An ack advances exactly when its number is beyond what was acked. */
  lemma AdvancesIff(es: seq<Event>, ids: seq<nat>, base: nat, t: Traced, n: nat)
    requires InOrder(es, ids, base) && n < |es| && es[n].Acked? && AckTrue(es, t, n)
    ensures OnAck(t.p, es[n].sn, es[n].at).1 != NotAdvancing <==> ids[n] > AckedNum(ids, t)
  {
    if t.ackedBy >= 0 {
      Compare(es, ids, base, n, t.ackedBy);
    }
  }

  /** What event n does to the cursor: an ack that advances becomes it. */
  lemma StepAcks(es: seq<Event>, cap: nat, t: Traced, n: nat)
    requires cap > 0 && n < |es| && Sized(t) && AckTrue(es, t, n)
    ensures var u := Step(t, cap, es[n], n);
            && AckTrue(es, u, n + 1)
            && u.ackedBy == (if es[n].Acked? && OnAck(t.p, es[n].sn, es[n].at).1 != NotAdvancing then n else t.ackedBy)
  {
  }

  lemma {:induction false} RunAcks(es: seq<Event>, cap: nat, ts: seq<Traced>, n: nat)
    requires IsRun(es, cap, ts) && n <= |es|
    ensures AckTrue(es, ts[n], n)
  {
    if n == 0 {
    } else {
      RunAcks(es, cap, ts, n - 1);
      assert StepAt(es, cap, ts, n - 1);
      StepAcks(es, cap, ts[n - 1], n - 1);
    }
  }

  /** The acked number never falls. */
  lemma {:induction false} AckedGrows(es: seq<Event>, ids: seq<nat>, cap: nat, base: nat, ts: seq<Traced>,
                                      m: nat, n: nat)
    requires IsRun(es, cap, ts) && InOrder(es, ids, base) && m <= n <= |es|
    ensures AckedNum(ids, ts[m]) <= AckedNum(ids, ts[n])
    decreases n
  {
    if m == n {
    } else {
      AckedGrows(es, ids, cap, base, ts, m, n - 1);
      AckedStep(es, ids, cap, base, ts, n - 1, n);
    }
  }

  lemma AckedStep(es: seq<Event>, ids: seq<nat>, cap: nat, base: nat, ts: seq<Traced>, m: nat, n: nat)
    requires IsRun(es, cap, ts) && InOrder(es, ids, base) && m < |es| && n == m + 1
    ensures AckedNum(ids, ts[m]) <= AckedNum(ids, ts[n])
  {
    RunAcks(es, cap, ts, m);
    assert StepAt(es, cap, ts, m);
    StepAcks(es, cap, ts[m], m);
    if es[m].Acked? {
      AdvancesIff(es, ids, base, ts[m], m);
    }
  }

  /** Of two matched acks the later has the greater number. */
  lemma MatchesAdvance(es: seq<Event>, ids: seq<nat>, cap: nat, base: nat, ts: seq<Traced>, m: nat, n: nat)
    requires IsRun(es, cap, ts) && InOrder(es, ids, base) && m < n < |es| && Matches(es, ts, m) && Matches(es, ts, n)
    ensures ids[m] < ids[n]
  {
    RunAcks(es, cap, ts, m);
    RunAcks(es, cap, ts, n);
    assert StepAt(es, cap, ts, m);
    StepAcks(es, cap, ts[m], m);
    AckedGrows(es, ids, cap, base, ts, m + 1, n);
    AdvancesIff(es, ids, base, ts[n], n);
  }

  // ---- How a sequence is lost from the ring ----------------------------------------------

  predicate Holds(t: Traced, sn: u32) { Find(t.p.ring, sn, 0) < |t.p.ring| }

  /** Event n overflows the ring, which forgets its oldest slot. */
  ghost predicate Evicts(es: seq<Event>, cap: nat, ts: seq<Traced>, n: nat)
    requires cap > 0 && n < |es| && n < |ts|
  {
    es[n].Sent? && |ts[n].p.ring| > 0 && OnSend(ts[n].p, cap, es[n].sn, es[n].at).1 == TrackedEvicting
  }

  ghost predicate EvictsOwn(es: seq<Event>, cap: nat, ts: seq<Traced>, n: nat, sn: u32)
    requires cap > 0 && n < |es| && n < |ts|
  {
    Evicts(es, cap, ts, n) && ts[n].p.ring[0].sn == sn
  }

  /** Event n is an ack that retires the slot of sn: the one it matches, or one before it. */
  ghost predicate Retires(es: seq<Event>, ts: seq<Traced>, n: nat, sn: u32)
    requires n < |es| && n < |ts|
  {
    Matches(es, ts, n) && Find(ts[n].p.ring, sn, 0) <= Find(ts[n].p.ring, es[n].sn, 0)
  }

  /** A slot goes only by its own eviction or by an ack. */
  lemma LossCause(es: seq<Event>, cap: nat, ts: seq<Traced>, n: nat, sn: u32)
    requires IsRun(es, cap, ts) && n < |es| && Holds(ts[n], sn) && !Holds(ts[n + 1], sn)
    ensures EvictsOwn(es, cap, ts, n, sn) || Retires(es, ts, n, sn)
  {
    assert StepAt(es, cap, ts, n);
    if es[n].Sent? {
      SendLoses(ts[n], ts[n + 1], cap, es[n].sn, es[n].at, n, sn);
    } else {
      AckLoses(ts[n], ts[n + 1], es[n].sn, es[n].at, n, sn);
    }
  }

  /** to has the sequences of ring from off on. */
  ghost predicate Carries(ring: seq<Slot>, to: seq<Slot>, off: nat) {
    |to| + off >= |ring| && forall x :: off <= x < |ring| ==> to[x - off].sn == ring[x].sn
  }

  lemma CarriesHolds(ring: seq<Slot>, to: seq<Slot>, off: nat, sn: u32)
    requires Carries(ring, to, off)
    ensures off <= Find(ring, sn, 0) < |ring| ==> Find(to, sn, 0) < |to|
  {
    var i := Find(ring, sn, 0);
    if off <= i < |ring| {
      assert to[i - off].sn == sn;
    }
  }

  lemma SendCarries(p: Record, cap: nat, sn: u32, at: nat)
    requires cap > 0
    ensures var (q, r) := OnSend(p, cap, sn, at); Carries(p.ring, q.ring, if r == TrackedEvicting then 1 else 0)
  {
  }

  lemma SendLoses(t: Traced, u: Traced, cap: nat, sent: u32, at: nat, n: nat, sn: u32)
    requires cap > 0 && Sized(t) && u == SendStep(t, cap, sent, at, n) && Holds(t, sn) && !Holds(u, sn)
    ensures OnSend(t.p, cap, sent, at).1 == TrackedEvicting && t.p.ring[0].sn == sn
  {
    SendCarries(t.p, cap, sent, at);
    CarriesHolds(t.p.ring, u.p.ring, if OnSend(t.p, cap, sent, at).1 == TrackedEvicting then 1 else 0, sn);
  }

  lemma SuffixCarries(ring: seq<Slot>, to: seq<Slot>, off: nat)
    requires off <= |ring| && to == ring[off..]
    ensures Carries(ring, to, off)
  {
  }

  lemma AckRing(p: Record, ack: u32, at: nat)
    ensures var (q, r) := OnAck(p, ack, at); var f := Find(p.ring, ack, 0);
            if r == NotAdvancing || r == Unmatched then q.ring == p.ring
            else f < |p.ring| && q.ring == p.ring[f + 1..]
  {
  }

  lemma AckCarries(p: Record, ack: u32, at: nat)
    ensures var (q, r) := OnAck(p, ack, at);
            Carries(p.ring, q.ring, if r == NotAdvancing || r == Unmatched then 0 else Find(p.ring, ack, 0) + 1)
  {
    AckRing(p, ack, at);
    var (q, r) := OnAck(p, ack, at);
    if r == NotAdvancing || r == Unmatched {
      SuffixCarries(p.ring, q.ring, 0);
    } else {
      SuffixCarries(p.ring, q.ring, Find(p.ring, ack, 0) + 1);
    }
  }

  lemma AckLoses(t: Traced, u: Traced, ack: u32, at: nat, n: nat, sn: u32)
    requires Sized(t) && u == AckStep(t, ack, at, n) && Holds(t, sn) && !Holds(u, sn)
    ensures OnAck(t.p, ack, at).1 != NotAdvancing && OnAck(t.p, ack, at).1 != Unmatched
    ensures Find(t.p.ring, sn, 0) <= Find(t.p.ring, ack, 0)
  {
    var r := OnAck(t.p, ack, at).1;
    AckCarries(t.p, ack, at);
    CarriesHolds(t.p.ring, u.p.ring,
                 if r == NotAdvancing || r == Unmatched then 0 else Find(t.p.ring, ack, 0) + 1, sn);
  }

  lemma {:induction false} FindLoss(ts: seq<Traced>, sn: u32, a: nat, b: nat) returns (m: nat)
    requires a <= b < |ts| && Holds(ts[a], sn) && !Holds(ts[b], sn)
    ensures a <= m < b && Holds(ts[m], sn) && !Holds(ts[m + 1], sn)
    decreases b
  {
    m := b - 1;
    if !Holds(ts[b - 1], sn) {
      m := FindLoss(ts, sn, a, b - 1);
    }
  }

  /** Sent, it is held. */
  lemma SentIsHeld(es: seq<Event>, cap: nat, ts: seq<Traced>, j: nat)
    requires IsRun(es, cap, ts) && j < |es| && es[j].Sent?
    ensures Holds(ts[j + 1], es[j].sn)
  {
    assert StepAt(es, cap, ts, j);
    SendHolds(ts[j], cap, es[j].sn, es[j].at, j);
  }

  lemma SendHolds(t: Traced, cap: nat, sn: u32, at: nat, k: nat)
    requires cap > 0 && Sized(t)
    ensures Holds(SendStep(t, cap, sn, at, k), sn)
  {
    var u := SendStep(t, cap, sn, at, k);
    var i := Find(t.p.ring, sn, 0);
    assert i < |t.p.ring| ==> u.p.ring[i].sn == sn;
    assert i == |t.p.ring| ==> u.p.ring[|u.p.ring| - 1].sn == sn;
  }

  lemma {:induction false} SomeSend(es: seq<Event>, n: nat, sn: u32) returns (j: nat)
    requires n <= |es| && Sends(es, n, sn) > 0
    ensures j < n && es[j].Sent? && es[j].sn == sn
  {
    j := n - 1;
    if !(es[n - 1].Sent? && es[n - 1].sn == sn) {
      j := SomeSend(es, n - 1, sn);
    }
  }

  // ---- Why a sample can be wrong ---------------------------------------------------------

  /** A first send goes beyond all before it. */
  lemma FirstIsBeyond(es: seq<Event>, ids: seq<nat>, base: nat, k: nat)
    requires InOrder(es, ids, base) && k < |es| && es[k].Sent? && Sends(es, k, es[k].sn) == 0
    ensures Beyond(es, ids, k)
  {
    if j :| 0 <= j < k && es[j].Sent? && ids[j] == ids[k] {
      Compare(es, ids, base, j, k);
      SentAtLeast(es, j, k);
      assert false;
    } else {
      assert !Repeats(es, ids, k);
    }
  }

  /** Slot i of the ring before event n: the event it came from sent its sequence. */
  lemma SlotSent(es: seq<Event>, cap: nat, ts: seq<Traced>, n: nat, i: nat)
    requires IsRun(es, cap, ts) && n <= |es| && i < |ts[n].p.ring|
    ensures |ts[n].from| == |ts[n].p.ring| && ts[n].from[i] < n
    ensures es[ts[n].from[i]].Sent? && es[ts[n].from[i]].sn == ts[n].p.ring[i].sn
  {
    RunTrue(es, cap, ts, n);
    assert SlotTrue(es, ts, n, ts[n], i);
  }

  /** Ack n matched a slot that was tracked when its sequence had already been sent and forgotten. */
  ghost predicate Retracked(es: seq<Event>, ts: seq<Traced>, n: nat)
    requires n < |es| && n < |ts| && Matches(es, ts, n)
  {
    var k := Origin(es, ts, n);
    k < |es| && k < |ts| && Retracks(es, ts, k)
  }

  /** An ack whose slot was tracked at a first send retires only numbers up to its own. */
  lemma RetiresBelow(es: seq<Event>, ids: seq<nat>, cap: nat, base: nat, ts: seq<Traced>, n: nat, i: nat)
    requires IsRun(es, cap, ts) && InOrder(es, ids, base) && n < |es| && Matches(es, ts, n)
    requires !Retracked(es, ts, n) && i <= Find(ts[n].p.ring, es[n].sn, 0)
    ensures i < |ts[n].from| && ts[n].from[i] < |ids| && ids[ts[n].from[i]] <= ids[n]
  {
    var f := Find(ts[n].p.ring, es[n].sn, 0);
    RunTrue(es, cap, ts, n);
    assert SlotTrue(es, ts, n, ts[n], f);
    SlotSent(es, cap, ts, n, i);
    RunInTurn(es, cap, ts, n);
    Compare(es, ids, base, ts[n].from[f], n);
    FirstIsBeyond(es, ids, base, ts[n].from[f]);
  }

  /** What makes a forgotten sequence be tracked anew: its own slot was evicted, or retired by the ack of a
      lower number whose slot had itself been tracked anew. */
  ghost predicate Forgets(es: seq<Event>, ids: seq<nat>, cap: nat, ts: seq<Traced>, m: nat, n: nat)
    requires cap > 0 && |ids| == |es| && m < |es| && m < |ts| && n < |es|
  {
    || EvictsOwn(es, cap, ts, m, es[n].sn)
    || (Retires(es, ts, m, es[n].sn) && ids[m] < ids[n] && Retracked(es, ts, m))
  }

  /** Between its send and its being tracked anew the sequence was lost from the ring. */
  lemma RetrackLoss(es: seq<Event>, cap: nat, ts: seq<Traced>, n: nat) returns (m: nat)
    requires IsRun(es, cap, ts) && n < |es| && Matches(es, ts, n) && Retracked(es, ts, n)
    ensures m < n && Holds(ts[m], es[n].sn)
    ensures EvictsOwn(es, cap, ts, m, es[n].sn) || Retires(es, ts, m, es[n].sn)
  {
    var o, sn := Origin(es, ts, n), es[n].sn;
    OriginSent(es, cap, ts, n);
    var j := SomeSend(es, o, sn);
    SentIsHeld(es, cap, ts, j);
    m := FindLoss(ts, sn, j + 1, o);
    LossCause(es, cap, ts, m, sn);
  }

  lemma RetiredIsBelow(es: seq<Event>, ids: seq<nat>, cap: nat, base: nat, ts: seq<Traced>, m: nat, n: nat)
    requires IsRun(es, cap, ts) && InOrder(es, ids, base) && m < n < |es| && Holds(ts[m], es[n].sn)
    requires Retires(es, ts, m, es[n].sn) && !Retracked(es, ts, m)
    ensures ids[n] <= ids[m]
  {
    var i := Find(ts[m].p.ring, es[n].sn, 0);
    RetiresBelow(es, ids, cap, base, ts, m, i);
    SlotSent(es, cap, ts, m, i);
    Compare(es, ids, base, ts[m].from[i], n);
  }

  lemma RetrackCause(es: seq<Event>, ids: seq<nat>, cap: nat, base: nat, ts: seq<Traced>, n: nat) returns (m: nat)
    requires IsRun(es, cap, ts) && InOrder(es, ids, base) && n < |es| && Matches(es, ts, n)
    requires Retracked(es, ts, n)
    ensures m < n && Forgets(es, ids, cap, ts, m, n)
  {
    m := RetrackLoss(es, cap, ts, n);
    if !EvictsOwn(es, cap, ts, m, es[n].sn) {
      MatchesAdvance(es, ids, cap, base, ts, m, n);
      if !Retracked(es, ts, m) {
        RetiredIsBelow(es, ids, cap, base, ts, m, n);
      }
    }
  }

  /** With first transmissions in order, a sample that times anything but the only send so far goes back
      to such a loss. */
  lemma WrongSampleCause(es: seq<Event>, ids: seq<nat>, cap: nat, base: nat, ts: seq<Traced>, n: nat) returns (m: nat)
    requires IsRun(es, cap, ts) && InOrder(es, ids, base) && n < |es| && es[n].Acked? && Outcome(es, ts, n).Sample?
    requires Sends(es, n, es[n].sn) != 1
    ensures m < n && Forgets(es, ids, cap, ts, m, n)
  {
    var k := SampleSoundIff(es, cap, ts, n);
    m := RetrackCause(es, ids, cap, base, ts, n);
  }

  /** Event m evicts a slot numbered at most v. */
  ghost predicate EvictsUpTo(es: seq<Event>, ids: seq<nat>, cap: nat, ts: seq<Traced>, m: nat, v: nat)
    requires cap > 0 && m < |es| && m < |ts|
  {
    Evicts(es, cap, ts, m) && |ts[m].from| > 0 && ts[m].from[0] < |ids| && ids[ts[m].from[0]] <= v
  }

  /** Nothing numbered at or below event n's sequence is evicted before it. */
  ghost predicate NoneEvictedUpTo(es: seq<Event>, ids: seq<nat>, cap: nat, ts: seq<Traced>, n: nat)
    requires cap > 0 && n < |es| == |ids| && |ts| == |es| + 1
  {
    forall m :: 0 <= m < n ==> !EvictsUpTo(es, ids, cap, ts, m, ids[n])
  }

  /** Followed back, those losses start with an eviction at or below the number acked. */
  lemma {:induction false} RetrackNeedsEviction(es: seq<Event>, ids: seq<nat>, cap: nat, base: nat, ts: seq<Traced>,
                                                n: nat)
    returns (m: nat)
    requires IsRun(es, cap, ts) && InOrder(es, ids, base) && n < |es| && Matches(es, ts, n)
    requires Retracked(es, ts, n)
    ensures m < n && EvictsUpTo(es, ids, cap, ts, m, ids[n])
    decreases n
  {
    m := RetrackCause(es, ids, cap, base, ts, n);
    if EvictsOwn(es, cap, ts, m, es[n].sn) {
      SlotSent(es, cap, ts, m, 0);
      Compare(es, ids, base, ts[m].from[0], n);
    } else {
      m := RetrackNeedsEviction(es, ids, cap, base, ts, m);
    }
  }

  /** Within one record's lifetime, if first transmissions go out in increasing serial order within
      half the circle and no slot numbered at or below the acked one was evicted for ring overflow, a
      sample is the time since the one and only reliable send of that sequence so far. */
  lemma KarnSoundUnlessEvicted(es: seq<Event>, ids: seq<nat>, cap: nat, base: nat, ts: seq<Traced>, n: nat)
    requires IsRun(es, cap, ts) && InOrder(es, ids, base) && n < |es|
    requires NoneEvictedUpTo(es, ids, cap, ts, n)
    requires es[n].Acked? && Outcome(es, ts, n).Sample?
    ensures Sends(es, n, es[n].sn) == 1
    ensures exists k :: 0 <= k < n && es[k] == Sent(es[n].sn, es[n].at - Outcome(es, ts, n).rtt)
  {
    var k := SampleSoundIff(es, cap, ts, n);
    if Retracks(es, ts, k) {
      var m := RetrackNeedsEviction(es, ids, cap, base, ts, n);
    }
  }

  /** In particular if none was. */
  lemma KarnSoundInOrder(es: seq<Event>, ids: seq<nat>, cap: nat, base: nat, ts: seq<Traced>, n: nat)
    requires IsRun(es, cap, ts) && InOrder(es, ids, base) && n < |es| && ts[n].evicted == 0
    requires es[n].Acked? && Outcome(es, ts, n).Sample?
    ensures Sends(es, n, es[n].sn) == 1
    ensures exists k :: 0 <= k < n && es[k] == Sent(es[n].sn, es[n].at - Outcome(es, ts, n).rtt)
  {
    forall m | 0 <= m < n ensures !EvictsUpTo(es, ids, cap, ts, m, ids[n]) {
      EvictionsCounted(es, cap, ts, m, n);
    }
    KarnSoundUnlessEvicted(es, ids, cap, base, ts, n);
  }

  lemma {:induction false} EvictionsCounted(es: seq<Event>, cap: nat, ts: seq<Traced>, m: nat, n: nat)
    requires IsRun(es, cap, ts) && m < n <= |es|
    ensures ts[n].evicted >= ts[m].evicted + (if Evicts(es, cap, ts, m) then 1 else 0)
    decreases n
  {
    assert StepAt(es, cap, ts, n - 1);
    StepIsAfter(ts[n - 1], cap, es[n - 1], n - 1);
    if m == n - 1 {
    } else {
      EvictionsCounted(es, cap, ts, m, n - 1);
    }
  }

  // ---- Without the hypothesis ----------------------------------------------------------------

  /** Sends of 0 to cap, which overflow the ring by one; then 0 again, and its ack. */
  function Overflowing(cap: nat): seq<Event>
    requires 0 < cap < MOD
  {
    seq(cap + 1, i requires 0 <= i <= cap => Sent(i, i)) + [Sent(0, cap + 100), Acked(0, cap + 105)]
  }

  lemma {:induction false} RingFills(cap: nat, ts: seq<Traced>, n: nat)
    requires 0 < cap < MOD && IsRun(Overflowing(cap), cap, ts) && n <= cap
    ensures ts[n].p.ring == seq(n, i requires 0 <= i < n => Slot(i, i, false)) && !ts[n].p.acked
  {
    if n == 0 {
    } else {
      RingFills(cap, ts, n - 1);
      assert StepAt(Overflowing(cap), cap, ts, n - 1);
      assert Overflowing(cap)[n - 1] == Sent(n - 1, n - 1);
      assert Sized(ts[n - 1]);
    }
  }

  /** For every capacity, a sequence evicted by overflow and sent again is tracked anew and yields a
      sample, though it was sent twice: the sample times the second send alone. */
  lemma EvictionBreaksKarn(cap: nat, ts: seq<Traced>)
    requires 0 < cap < MOD && IsRun(Overflowing(cap), cap, ts)
    ensures Outcome(Overflowing(cap), ts, cap + 2) == Sample(5)
    ensures Sends(Overflowing(cap), cap + 2, 0) >= 2
  {
    var es := Overflowing(cap);
    RingFills(cap, ts, cap);
    assert es[0] == Sent(0, 0) && es[cap] == Sent(cap, cap);
    assert es[cap + 1] == Sent(0, cap + 100) && es[cap + 2] == Acked(0, cap + 105);
    assert StepAt(es, cap, ts, cap) && StepAt(es, cap, ts, cap + 1);
    var r0 := ts[cap].p.ring;
    assert Find(r0, cap, 0) == cap;
    var r1 := ts[cap + 1].p.ring;
    assert r1 == r0[1..] + [Slot(cap, cap, false)];
    assert forall i :: 0 <= i < cap ==> r1[i].sn == i + 1;
    assert Find(r1, 0, 0) == cap;
    var r2 := ts[cap + 2].p.ring;
    assert r2 == r1[1..] + [Slot(0, cap + 100, false)];
    assert r2[cap - 1] == Slot(0, cap + 100, false);
    assert Find(r2, 0, 0) == cap - 1;
    SentAtLeast(es, 0, cap + 1);
  }

  /** In a ring of two: 1, 2 and 3, which evicts 1; 1 again, which evicts 2; its ack, which retires 3 and 1;
      3 again, and its ack. */
  const OVERTAKEN := [Sent(1, 0), Sent(2, 1), Sent(3, 2), Sent(1, 3), Acked(1, 4), Sent(3, 50), Acked(3, 55)]

  lemma OvertakenRepeats(es: seq<Event>, ids: seq<nat>)
    requires es == OVERTAKEN && ids == [1, 2, 3, 1, 1, 3, 3]
    ensures Repeats(es, ids, 3) && Repeats(es, ids, 5)
  {
    assert es[0].Sent? && ids[0] == ids[3];
    assert es[2].Sent? && ids[2] == ids[5];
  }

  lemma OvertakenBeyond(es: seq<Event>, ids: seq<nat>)
    requires es == OVERTAKEN && ids == [1, 2, 3, 1, 1, 3, 3]
    ensures Beyond(es, ids, 0) && Beyond(es, ids, 1) && Beyond(es, ids, 2)
  {
  }

  lemma OvertakenInOrder()
    ensures InOrder(OVERTAKEN, [1, 2, 3, 1, 1, 3, 3], 0)
  {
    OvertakenRepeats(OVERTAKEN, [1, 2, 3, 1, 1, 3, 3]);
    OvertakenBeyond(OVERTAKEN, [1, 2, 3, 1, 1, 3, 3]);
  }

  lemma OvertakenFills(ts: seq<Traced>)
    requires IsRun(OVERTAKEN, 2, ts)
    ensures ts[0].p.ring == [] && ts[1].p.ring == [Slot(1, 0, false)]
    ensures ts[2].p.ring == [Slot(1, 0, false), Slot(2, 1, false)] && !ts[2].p.acked && Sized(ts[2])
  {
    assert StepAt(OVERTAKEN, 2, ts, 0) && StepAt(OVERTAKEN, 2, ts, 1);
  }

  lemma OvertakenEvicts(ts: seq<Traced>)
    requires IsRun(OVERTAKEN, 2, ts) && ts[2].p.ring == [Slot(1, 0, false), Slot(2, 1, false)] && !ts[2].p.acked
    ensures ts[3].p.ring == [Slot(2, 1, false), Slot(3, 2, false)]
    ensures ts[4].p.ring == [Slot(3, 2, false), Slot(1, 3, false)] && !ts[4].p.acked
  {
    assert StepAt(OVERTAKEN, 2, ts, 2);
    assert ts[3].p.ring == [Slot(2, 1, false), Slot(3, 2, false)];
    assert StepAt(OVERTAKEN, 2, ts, 3);
  }

  lemma OvertakenRetires(ts: seq<Traced>)
    requires IsRun(OVERTAKEN, 2, ts) && ts[4].p.ring == [Slot(3, 2, false), Slot(1, 3, false)] && !ts[4].p.acked
    ensures ts[5].p.ring == [] && ts[6].p.ring == [Slot(3, 50, false)]
    ensures Outcome(OVERTAKEN, ts, 6) == Sample(5)
  {
    assert StepAt(OVERTAKEN, 2, ts, 4);
    assert Find(ts[4].p.ring, 1, 0) == 1 && ts[4].p.ring[2..] == [];
    assert ts[5].p.ring == [] && ts[5].p.lastAck == 1;
    assert StepAt(OVERTAKEN, 2, ts, 5);
  }

  lemma OvertakenSends()
    ensures Sends(OVERTAKEN, 6, 3) == 2
  {
    assert Sends(OVERTAKEN, 2, 3) == 0;
    assert Sends(OVERTAKEN, 4, 3) == 1;
  }

  /** Its own slot need not be evicted: 3 is sampled after two sends, with first transmissions in order. */
  lemma OvertakenBreaksKarn(ts: seq<Traced>)
    requires IsRun(OVERTAKEN, 2, ts)
    ensures InOrder(OVERTAKEN, [1, 2, 3, 1, 1, 3, 3], 0)
    ensures Outcome(OVERTAKEN, ts, 6) == Sample(5) && Sends(OVERTAKEN, 6, 3) == 2
    ensures forall m :: 0 <= m < 6 ==> !EvictsOwn(OVERTAKEN, 2, ts, m, 3)
  {
    OvertakenInOrder();
    OvertakenFills(ts);
    OvertakenEvicts(ts);
    OvertakenRetires(ts);
    OvertakenSends();
  }

  /** 0 goes out and is acked; two acks of sequences never sent carry the cursor once around the
      circle; 0 goes out again and is acked. */
  const STRAY_ACKS := [Sent(0, 10), Acked(0, 20), Acked(HALF - 1, 30), Acked(MOD - 2, 40), Sent(0, 50), Acked(0, 55)]

  /** The acks must stay in the numbering too: otherwise a sequence already acked can be tracked and
      sampled again, with first transmissions in order and nothing evicted. */
  lemma StrayAcksBreakKarn(cap: nat, ts: seq<Traced>)
    requires IsRun(STRAY_ACKS, cap, ts)
    ensures Outcome(STRAY_ACKS, ts, 5) == Sample(5) && ts[5].evicted == 0
    ensures Sends(STRAY_ACKS, 5, 0) == 2
  {
    var es := STRAY_ACKS;
    assert StepAt(es, cap, ts, 0) && StepAt(es, cap, ts, 1) && StepAt(es, cap, ts, 2);
    AckedAndRetired(cap, ts[0], ts[1], ts[2]);
    CarriedHalfway(ts[2], ts[3]);
    assert StepAt(es, cap, ts, 3) && StepAt(es, cap, ts, 4);
    AckedAgain(cap, ts[3], ts[4], ts[5]);
    StraySends();
  }

  lemma StraySends()
    ensures Sends(STRAY_ACKS, 5, 0) == 2
  {
    assert Sends(STRAY_ACKS, 1, 0) == 1;
    assert Sends(STRAY_ACKS, 3, 0) == 1;
  }

  /** 0 is sent, acked and retired. */
  lemma AckedAndRetired(cap: nat, t: Traced, u: Traced, v: Traced)
    requires cap > 0 && t == START && u == SendStep(t, cap, 0, 10, 0) && v == AckStep(u, 0, 20, 1)
    ensures v.p.ring == [] && v.p.lastAck == 0 && v.p.acked && v.evicted == 0
  {
    assert u.p.ring == [Slot(0, 10, false)];
  }

  /** The cursor is carried half way around. */
  lemma CarriedHalfway(t: Traced, u: Traced)
    requires Sized(t) && t.p.ring == [] && t.p.lastAck == 0 && t.p.acked && u == AckStep(t, HALF - 1, 30, 2)
    ensures u.p.ring == [] && u.p.lastAck == HALF - 1 && u.p.acked && u.evicted == t.evicted
  {
  }

  /** It is carried the rest of the way; 0 is sent again, and its ack advances. */
  lemma AckedAgain(cap: nat, t: Traced, u: Traced, v: Traced)
    requires cap > 0 && Sized(t) && t.p.ring == [] && t.p.lastAck == HALF - 1 && t.p.acked
    requires u == AckStep(t, MOD - 2, 40, 3) && v == SendStep(u, cap, 0, 50, 4)
    ensures OnAck(v.p, 0, 55).1 == Sample(5) && v.evicted == t.evicted
  {
    assert u.p.ring == [] && u.p.lastAck == MOD - 2;
    assert v.p.ring == [Slot(0, 50, false)];
  }

  lemma {:induction false} SentAtLeast(es: seq<Event>, k: nat, n: nat)
    requires k < n <= |es| && es[k].Sent?
    ensures Sends(es, n, es[k].sn) >= 1
  {
    if k == n - 1 {
    } else {
      SentAtLeast(es, k, n - 1);
    }
  }
}
