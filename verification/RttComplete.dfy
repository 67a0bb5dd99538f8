/** The outcome of every ack in every run of one peer record, from the traffic alone: when it advances, whether
    it finds its send still tracked, and then which of sample and discard it is. */
module RttComplete {
  import opened Serial
  import opened RttModel
  import opened RttKarn
  import opened RttInOrder

  // ---- Which acks advance ----------------------------------------------------------------------

  /** The last of the first n events that acks beyond all acks before it, or -1. */
  function LastAdvance(es: seq<Event>, n: nat): (r: int)
    requires n <= |es|
    ensures -1 <= r < n && (r >= 0 ==> es[r].Acked?)
  {
    if n == 0 then -1
    else
      var was, e := LastAdvance(es, n - 1), es[n - 1];
      if e.Acked? && (was < 0 || Cmp(e.sn, es[was].sn) > 0) then n - 1 else was
  }

  predicate Advances(es: seq<Event>, n: nat)
    requires n < |es|
  {
    es[n].Acked? && (LastAdvance(es, n) < 0 || Cmp(es[n].sn, es[LastAdvance(es, n)].sn) > 0)
  }

  lemma {:induction false} AckedByIsLastAdvance(es: seq<Event>, cap: nat, ts: seq<Traced>, n: nat)
    requires IsRun(es, cap, ts) && n <= |es|
    ensures ts[n].ackedBy == LastAdvance(es, n)
  {
    if n == 0 {
    } else {
      AckedByIsLastAdvance(es, cap, ts, n - 1);
      RunAcks(es, cap, ts, n - 1);
      assert StepAt(es, cap, ts, n - 1);
      StepAcks(es, cap, ts[n - 1], n - 1);
      AdvanceIff(es, cap, ts, n - 1);
    }
  }

  lemma AdvanceIff(es: seq<Event>, cap: nat, ts: seq<Traced>, n: nat)
    requires IsRun(es, cap, ts) && n < |es| && ts[n].ackedBy == LastAdvance(es, n)
    ensures es[n].Acked? ==> (Outcome(es, ts, n) != NotAdvancing <==> Advances(es, n))
  {
    RunAcks(es, cap, ts, n);
  }

  // ---- The slot of one sequence -------------------------------------------------------------------

  /** The slot of a held sequence, and the event that put it there. */
  ghost function SlotOf(t: Traced, sn: u32): Slot
    requires Holds(t, sn)
  {
    t.p.ring[Find(t.p.ring, sn, 0)]
  }

  ghost function FromOf(t: Traced, sn: u32): nat
    requires Sized(t) && Holds(t, sn)
  {
    t.from[Find(t.p.ring, sn, 0)]
  }

  lemma FoundAt(ring: seq<Slot>, i: nat, sn: u32)
    requires Distinct(ring) && i < |ring| && ring[i].sn == sn
    ensures Find(ring, sn, 0) == i
  {
  }

  /** A step leaves a slot it keeps alone, except to mark it when its sequence is sent again; a slot it makes is
      that of the sequence it sends. */
  ghost predicate SlotKept(t: Traced, u: Traced, e: Event, n: nat, sn: u32)
    requires Sized(t) && Sized(u)
  {
    Holds(u, sn) ==>
      var again := e.Sent? && e.sn == sn;
      if Holds(t, sn) then
        && FromOf(u, sn) == FromOf(t, sn)
        && SlotOf(u, sn) == SlotOf(t, sn).(ambiguous := SlotOf(t, sn).ambiguous || again)
      else again && FromOf(u, sn) == n && SlotOf(u, sn) == Slot(sn, e.at, false)
  }

  lemma SendKeepsSlot(t: Traced, cap: nat, sent: u32, at: nat, n: nat, sn: u32)
    requires cap > 0 && Sized(t) && Distinct(t.p.ring)
    ensures SlotKept(t, SendStep(t, cap, sent, at, n), Sent(sent, at), n, sn)
  {
    var u := SendStep(t, cap, sent, at, n);
    var off := if OnSend(t.p, cap, sent, at).1 == TrackedEvicting then 1 else 0;
    if Holds(u, sn) {
      var i := Find(u.p.ring, sn, 0);
      if i + off < |t.p.ring| {
        FoundAt(t.p.ring, i + off, sn);
      } else {
        KeptIsBefore(t.p.ring, u.p.ring, off, sn);
      }
    }
  }

  /** A slot that was kept lies before the new one. */
  lemma KeptIsBefore(ring: seq<Slot>, to: seq<Slot>, off: nat, sn: u32)
    requires off <= |ring| && |to| == |ring| - off + 1
    requires forall x :: off <= x < |ring| ==> to[x - off].sn == ring[x].sn
    ensures off <= Find(ring, sn, 0) < |ring| ==> Find(to, sn, 0) < |to| - 1
  {
    var f := Find(ring, sn, 0);
    if off <= f < |ring| {
      assert to[f - off].sn == sn;
    }
  }

  lemma AckKeepsSlot(t: Traced, sn: u32, at: nat, n: nat, other: u32)
    requires Sized(t) && Distinct(t.p.ring)
    ensures SlotKept(t, AckStep(t, sn, at, n), Acked(sn, at), n, other)
  {
    var u := AckStep(t, sn, at, n);
    AckRing(t.p, sn, at);
    var off := |t.p.ring| - |u.p.ring|;
    if Holds(u, other) {
      FoundAt(t.p.ring, Find(u.p.ring, other, 0) + off, other);
    }
  }

  lemma StepSlot(es: seq<Event>, cap: nat, ts: seq<Traced>, n: nat, m: nat, sn: u32)
    requires IsRun(es, cap, ts) && n < |es| && m == n + 1
    ensures Sized(ts[n]) && Sized(ts[m]) && SlotKept(ts[n], ts[m], es[n], n, sn)
  {
    RunTrue(es, cap, ts, n);
    assert StepAt(es, cap, ts, n);
    if es[n].Sent? {
      SendKeepsSlot(ts[n], cap, es[n].sn, es[n].at, n, sn);
    } else {
      AckKeepsSlot(ts[n], es[n].sn, es[n].at, n, sn);
    }
  }

  // ---- While it is outstanding ----------------------------------------------------------------------

  /** Event m pushes the slot of sn out of a full ring: it sends a sequence the ring does not hold, and sn's is
      the oldest slot. */
  ghost predicate Pushes(es: seq<Event>, cap: nat, ts: seq<Traced>, m: nat, sn: u32)
    requires cap > 0 && m < |es| && m < |ts|
  {
    && es[m].Sent? && |ts[m].p.ring| >= cap && !Holds(ts[m], es[m].sn)
    && ts[m].p.ring[0].sn == sn
  }

  lemma PushesIffEvicts(es: seq<Event>, cap: nat, ts: seq<Traced>, m: nat, sn: u32)
    requires cap > 0 && m < |es| && m < |ts|
    ensures Pushes(es, cap, ts, m, sn) <==> EvictsOwn(es, cap, ts, m, sn)
  {
  }

  /** Event m neither pushes sn's slot out nor uses up by a matching ack an event from k on. */
  ghost predicate Spares(es: seq<Event>, cap: nat, ts: seq<Traced>, k: nat, m: nat, sn: u32)
    requires cap > 0 && m < |es| && m < |ts|
  {
    !Pushes(es, cap, ts, m, sn) && (Matches(es, ts, m) ==> Origin(es, ts, m) < k)
  }

  /** Event k sends sn when the ring does not hold it, and before event n nothing pushes its slot out or uses up
      an event from k on. */
  ghost predicate Outstanding(es: seq<Event>, cap: nat, ts: seq<Traced>, k: nat, n: nat, sn: u32)
    requires cap > 0 && n <= |es| && |ts| == |es| + 1
  {
    && k < n && es[k].Sent? && es[k].sn == sn && !Holds(ts[k], sn)
    && forall m :: k < m < n ==> Spares(es, cap, ts, k, m, sn)
  }

  /** What the record holds of a sequence that event k sent: marked exactly if it was sent again. */
  ghost predicate HeldFrom(es: seq<Event>, t: Traced, k: nat, n: nat, sn: u32)
    requires n <= |es|
  {
    && Sized(t) && Holds(t, sn) && FromOf(t, sn) == k < n && es[k].Sent? && es[k].sn == sn
    && SlotOf(t, sn).sent == es[k].at
    && (SlotOf(t, sn).ambiguous <==> Sends(es, n, sn) > Sends(es, k, sn) + 1)
    && Sends(es, n, sn) > Sends(es, k, sn)
  }

  lemma HeldOn(es: seq<Event>, t: Traced, u: Traced, k: nat, n: nat, m: nat, sn: u32)
    requires n < |es| && m == n + 1 && Sized(t) && Sized(u) && SlotKept(t, u, es[n], n, sn)
    requires Holds(u, sn) && (Holds(t, sn) ==> HeldFrom(es, t, k, n, sn)) && (!Holds(t, sn) ==> k == n)
    ensures HeldFrom(es, u, k, m, sn)
  {
  }

  /** A slot outlives every event that spares it. */
  lemma SparedStays(es: seq<Event>, cap: nat, ts: seq<Traced>, k: nat, n: nat, m: nat, sn: u32)
    requires IsRun(es, cap, ts) && n < |es| && m == n + 1
    requires HeldFrom(es, ts[n], k, n, sn) && Spares(es, cap, ts, k, n, sn)
    ensures Holds(ts[m], sn)
  {
    if !Holds(ts[m], sn) {
      LossCause(es, cap, ts, n, sn);
      PushesIffEvicts(es, cap, ts, n, sn);
      RunInTurn(es, cap, ts, n);
    }
  }

  lemma {:induction false} OutstandingIsHeld(es: seq<Event>, cap: nat, ts: seq<Traced>, k: nat, n: nat, sn: u32)
    requires IsRun(es, cap, ts) && n <= |es| && Outstanding(es, cap, ts, k, n, sn)
    ensures HeldFrom(es, ts[n], k, n, sn)
    decreases n
  {
    StepSlot(es, cap, ts, n - 1, n, sn);
    if n == k + 1 {
      SentIsHeld(es, cap, ts, k);
    } else {
      OutstandingIsHeld(es, cap, ts, k, n - 1, sn);
      assert Spares(es, cap, ts, k, n - 1, sn);
      SparedStays(es, cap, ts, k, n - 1, n, sn);
    }
    HeldOn(es, ts[n - 1], ts[n], k, n - 1, n, sn);
  }

  /** Held, a sequence has been so ever since the event that tracked it. */
  lemma {:induction false} HeldSince(es: seq<Event>, cap: nat, ts: seq<Traced>, n: nat, sn: u32) returns (k: nat)
    requires IsRun(es, cap, ts) && n <= |es| && Holds(ts[n], sn)
    ensures HeldFrom(es, ts[n], k, n, sn) && !Holds(ts[k], sn)
    ensures forall m :: k < m <= n ==> Holds(ts[m], sn)
  {
    k := 0;
    if n == 0 {
    } else {
      StepSlot(es, cap, ts, n - 1, n, sn);
      if Holds(ts[n - 1], sn) {
        k := HeldSince(es, cap, ts, n - 1, sn);
      } else {
        k := n - 1;
      }
      HeldOn(es, ts[n - 1], ts[n], k, n - 1, n, sn);
    }
  }

  lemma HeldIsOutstanding(es: seq<Event>, cap: nat, ts: seq<Traced>, n: nat, sn: u32) returns (k: nat)
    requires IsRun(es, cap, ts) && n <= |es| && Holds(ts[n], sn)
    ensures HeldFrom(es, ts[n], k, n, sn) && Outstanding(es, cap, ts, k, n, sn)
  {
    k := HeldSince(es, cap, ts, n, sn);
    forall m | k < m < n ensures Spares(es, cap, ts, k, m, sn) {
      HeldIsSpared(es, cap, ts, k, m, m + 1, n, sn);
    }
  }

  lemma HeldIsSpared(es: seq<Event>, cap: nat, ts: seq<Traced>, k: nat, m: nat, next: nat, n: nat, sn: u32)
    requires IsRun(es, cap, ts) && k < m < n <= |es| && next == m + 1
    requires HeldFrom(es, ts[n], k, n, sn) && Holds(ts[next], sn)
    ensures Spares(es, cap, ts, k, m, sn)
  {
    RunTrue(es, cap, ts, m);
    assert StepAt(es, cap, ts, m);
    if Matches(es, ts, m) {
      MatchDropsPrefix(es, cap, ts, m);
      StaysBeyond(es, cap, ts, Origin(es, ts, m), next, n);
    } else if Pushes(es, cap, ts, m, sn) {
      PushedIsGone(ts[m], cap, es[m].sn, es[m].at, m, sn);
    }
  }

  lemma PushedIsGone(t: Traced, cap: nat, sent: u32, at: nat, n: nat, sn: u32)
    requires cap > 0 && Sized(t) && Distinct(t.p.ring) && |t.p.ring| >= cap && !Holds(t, sent) && t.p.ring[0].sn == sn
    ensures !Holds(SendStep(t, cap, sent, at, n), sn)
  {
  }

  // ---- Every outcome ----------------------------------------------------------------------------------

  /** What an ack makes of its sequence's tracked send k. */
  function Verdict(es: seq<Event>, k: nat, n: nat): AckResult
    requires k < n < |es|
  {
    if Sends(es, n, es[n].sn) > Sends(es, k, es[n].sn) + 1 then DiscardedAmbiguous
    else if es[n].at < es[k].at || es[n].at > es[k].at + MAX_SAMPLE_MS then DiscardedRange
    else Sample(es[n].at - es[k].at)
  }

  /** In every run, an ack that does not go beyond all acks before it is ignored; any other is unmatched exactly
      when no send of its sequence is outstanding, and else it is judged by that send: ambiguous if the sequence
      was sent again, out of range beyond thirty seconds, and otherwise sampled as the time since. */
  lemma {:induction false} OutcomeIff(es: seq<Event>, cap: nat, ts: seq<Traced>, n: nat)
    requires IsRun(es, cap, ts) && n < |es| && es[n].Acked?
    ensures Outcome(es, ts, n) == NotAdvancing <==> !Advances(es, n)
    ensures Advances(es, n) ==>
              (Outcome(es, ts, n) == Unmatched <==>
               forall k :: 0 <= k < n ==> !Outstanding(es, cap, ts, k, n, es[n].sn))
    ensures forall k :: 0 <= k < n && Advances(es, n) && Outstanding(es, cap, ts, k, n, es[n].sn) ==>
              Outcome(es, ts, n) == Verdict(es, k, n)
  {
    AckedByIsLastAdvance(es, cap, ts, n);
    AdvanceIff(es, cap, ts, n);
    var sn := es[n].sn;
    forall k | 0 <= k < n && Advances(es, n) && Outstanding(es, cap, ts, k, n, sn)
      ensures Outcome(es, ts, n) == Verdict(es, k, n)
    {
      OutstandingIsHeld(es, cap, ts, k, n, sn);
      HeldIsJudged(es, ts, k, n);
    }
    if Holds(ts[n], sn) {
      var k := HeldIsOutstanding(es, cap, ts, n, sn);
    }
  }

  lemma HeldIsJudged(es: seq<Event>, ts: seq<Traced>, k: nat, n: nat)
    requires n < |es| && n < |ts| && es[n].Acked? && HeldFrom(es, ts[n], k, n, es[n].sn)
    ensures Outcome(es, ts, n) != NotAdvancing ==> Outcome(es, ts, n) == Verdict(es, k, n)
  {
  }

  /** So, conversely to soundness: the only send of a sequence, while outstanding, is sampled by the ack that
      advances to it exactly when it came back within thirty seconds. */
  lemma {:induction false} OnlySendIsSampled(es: seq<Event>, cap: nat, ts: seq<Traced>, k: nat, n: nat)
    requires IsRun(es, cap, ts) && k < n < |es| && Advances(es, n)
    requires es[k].Sent? && es[k].sn == es[n].sn && Sends(es, n, es[n].sn) == 1
    requires forall m :: k < m < n ==> Spares(es, cap, ts, k, m, es[n].sn)
    ensures Outcome(es, ts, n) == if 0 <= es[n].at - es[k].at <= MAX_SAMPLE_MS then Sample(es[n].at - es[k].at)
                                  else DiscardedRange
  {
    SendsGrow(es, es[n].sn, k + 1, n);
    if Holds(ts[k], es[n].sn) {
      var j := HeldSince(es, cap, ts, k, es[n].sn);
    }
    assert Outstanding(es, cap, ts, k, n, es[n].sn);
    OutcomeIff(es, cap, ts, n);
  }

  lemma {:induction false} SendsGrow(es: seq<Event>, sn: u32, m: nat, n: nat)
    requires m <= n <= |es|
    ensures Sends(es, m, sn) <= Sends(es, n, sn)
    decreases n
  {
    if m == n {
    } else {
      SendsGrow(es, sn, m, n - 1);
    }
  }
}
