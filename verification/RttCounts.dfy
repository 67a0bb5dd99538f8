/** What the sampler's counters say about its traffic, over every run of the whole peer table:
    claims, evictions and purges of records included. */
module RttCounts {
  import opened PeerTable
  import opened Serial
  import opened RttModel

  datatype Op =
    | Sending(addr: nat, sn: u32, at: nat)
    | Receiving(addr: nat, ack: u32, at: nat)
    | Purging(addr: nat)

  function Apply(c: Ctx, op: Op): Ctx
    requires |c.peers| > 0 && c.cap > 0
  {
    match op
    case Sending(addr, sn, at) => Send(c, addr, sn, at)
    case Receiving(addr, ack, at) => Ack(c, addr, ack, at).0
    case Purging(addr) => Purge(c, addr)
  }

  function Start(cap: nat, peers: nat): Ctx {
    Ctx(cap, seq(peers, _ => Entry(0, 0, BLANK)), NO_STATS)
  }

  ghost predicate StepAt(ops: seq<Op>, cs: seq<Ctx>, i: nat)
    requires i < |ops| && |cs| == |ops| + 1
  {
    |cs[i].peers| > 0 && cs[i].cap > 0 && cs[i + 1] == Apply(cs[i], ops[i])
  }

  ghost predicate IsRun(cap: nat, peers: nat, ops: seq<Op>, cs: seq<Ctx>) {
    && cap > 0 && peers > 0 && |cs| == |ops| + 1 && cs[0] == Start(cap, peers)
    && forall i :: 0 <= i < |ops| ==> StepAt(ops, cs, i)
  }

  /** Slots in use in the first n records. */
  function Outstanding(ps: seq<Entry<Record>>, n: nat): nat
    requires n <= |ps|
  {
    if n == 0 then 0 else Outstanding(ps, n - 1) + |ps[n - 1].rec.ring|
  }

  lemma {:induction false} UpdateOutstanding(ps: seq<Entry<Record>>, i: nat, e: Entry<Record>, n: nat)
    requires i < |ps| && n <= |ps|
    ensures Outstanding(ps[i := e], n) == Outstanding(ps, n) + (if i < n then |e.rec.ring| - |ps[i].rec.ring| else 0)
  {
    if n == 0 {
    } else {
      UpdateOutstanding(ps, i, e, n - 1);
    }
  }

  lemma {:induction false} StartsEmpty(peers: nat, n: nat)
    requires n <= peers
    ensures Outstanding(seq(peers, _ => Entry(0, 0, BLANK)), n) == 0
  {
    if n == 0 {
    } else {
      StartsEmpty(peers, n - 1);
    }
  }

  ghost predicate RingsFit(c: Ctx) {
    forall i :: 0 <= i < |c.peers| ==> |c.peers[i].rec.ring| <= c.cap
  }

  /** Every advancing ack is counted once, under what became of it; and no more slots are held, were
      evicted or were used up by an ack than were ever tracked. */
  ghost predicate CountsOk(c: Ctx) {
    && c.st.acks == c.st.samples + c.st.unmatched + c.st.discardedAmbig + c.st.discardedRange
    && c.st.samples + c.st.discardedAmbig + c.st.discardedRange + c.st.evicted + Outstanding(c.peers, |c.peers|)
       <= c.st.tracked
    && RingsFit(c)
  }

  /** Replacing a record by one whose ring shrank while the counters moved to match. */
  lemma Replace(c: Ctx, d: Ctx, i: nat, e: Entry<Record>)
    requires CountsOk(c) && i < |c.peers| && d.cap == c.cap && d.peers == c.peers[i := e] && |e.rec.ring| <= c.cap
    requires d.st.acks - c.st.acks ==
               (d.st.samples - c.st.samples) + (d.st.unmatched - c.st.unmatched)
               + (d.st.discardedAmbig - c.st.discardedAmbig) + (d.st.discardedRange - c.st.discardedRange)
    requires (d.st.samples - c.st.samples) + (d.st.discardedAmbig - c.st.discardedAmbig)
             + (d.st.discardedRange - c.st.discardedRange) + (d.st.evicted - c.st.evicted) + |e.rec.ring|
             <= |c.peers[i].rec.ring| + (d.st.tracked - c.st.tracked)
    ensures CountsOk(d)
  {
    UpdateOutstanding(c.peers, i, e, |c.peers|);
  }

  /** The table and counters after a lookup. */
  function Found(c: Ctx, addr: nat, now: nat): Ctx
    requires |c.peers| > 0
  {
    c.(peers := Lookup(c.peers, BLANK, addr, now), st := CountLookup(c, addr))
  }

  lemma LookupCounts(c: Ctx, addr: nat, now: nat)
    requires |c.peers| > 0 && CountsOk(c)
    ensures CountsOk(Found(c, addr, now))
  {
    var i, d := PlaceOf(c.peers, addr), Found(c, addr, now);
    Replace(c, d, i, d.peers[i]);
  }

  lemma OnSendCounts(p: Record, cap: nat, sn: u32, now: nat, s: Stats)
    requires cap > 0 && |p.ring| <= cap
    ensures var (q, r) := OnSend(p, cap, sn, now); var t := CountSend(s, r);
            && |q.ring| <= cap
            && t.acks == s.acks && t.samples == s.samples && t.unmatched == s.unmatched
            && t.discardedAmbig == s.discardedAmbig && t.discardedRange == s.discardedRange
            && |q.ring| + t.evicted - s.evicted == |p.ring| + t.tracked - s.tracked
  {
  }

  lemma OnAckCounts(p: Record, ack: u32, now: nat, s: Stats)
    ensures var (q, r) := OnAck(p, ack, now); var t := CountAck(s, r);
            && t.tracked == s.tracked && t.evicted == s.evicted
            && t.acks - s.acks == (t.samples - s.samples) + (t.unmatched - s.unmatched)
                                  + (t.discardedAmbig - s.discardedAmbig) + (t.discardedRange - s.discardedRange)
            && (t.samples - s.samples) + (t.discardedAmbig - s.discardedAmbig)
               + (t.discardedRange - s.discardedRange) + |q.ring| <= |p.ring|
  {
  }

  lemma ApplyCounts(c: Ctx, op: Op)
    requires |c.peers| > 0 && c.cap > 0 && CountsOk(c)
    ensures CountsOk(Apply(c, op))
  {
    match op
    case Sending(addr, sn, at) =>
      if addr != 0 {
        var i, d := PlaceOf(c.peers, addr), Found(c, addr, at);
        LookupCounts(c, addr, at);
        OnSendCounts(d.peers[i].rec, c.cap, sn, at, d.st);
        Replace(d, Apply(c, op), i, Apply(c, op).peers[i]);
      }
    case Receiving(addr, ack, at) =>
      if addr != 0 {
        var i, d := PlaceOf(c.peers, addr), Found(c, addr, at);
        LookupCounts(c, addr, at);
        OnAckCounts(d.peers[i].rec, ack, at, d.st);
        Replace(d, Apply(c, op), i, Apply(c, op).peers[i]);
      }
    case Purging(addr) =>
      var at := FindAddr(c.peers, addr, 0);
      if at < |c.peers| {
        Replace(c, Apply(c, op), at, Entry(0, 0, BLANK));
      }
  }

  /** In every run of the table the outcomes of the advancing acks add up to their number, and matched
      acks, evicted slots and outstanding ones together do not exceed the tracked sends. */
  lemma {:induction false} CountsAddUp(cap: nat, peers: nat, ops: seq<Op>, cs: seq<Ctx>, n: nat)
    requires IsRun(cap, peers, ops, cs) && n <= |ops|
    ensures CountsOk(cs[n])
  {
    if n == 0 {
      StartsEmpty(peers, peers);
    } else {
      CountsAddUp(cap, peers, ops, cs, n - 1);
      assert StepAt(ops, cs, n - 1);
      ApplyCounts(cs[n - 1], ops[n - 1]);
    }
  }

  // ---- What each counter counts ---------------------------------------------------------------

  /** The outstanding sequences of a peer, none if it has no record. */
  function RingOf(c: Ctx, addr: nat): seq<Slot> {
    var i := FindAddr(c.peers, addr, 0);
    if i < |c.peers| then c.peers[i].rec.ring else []
  }

  /** A reliable send counts as tracked when its sequence is not outstanding, evicting the oldest of a full ring; as
      ambiguous when it is, for the first time. */
  lemma SendingCounts(c: Ctx, addr: nat, sn: u32, now: nat)
    requires |c.peers| > 0 && c.cap > 0 && addr != 0
    ensures var ring, s := RingOf(c, addr), c.st;
            var i := Find(ring, sn, 0);
            Send(c, addr, sn, now).st ==
              s.(tracked := s.tracked + Bit(i == |ring|), evicted := s.evicted + Bit(i == |ring| >= c.cap),
                 ambiguous := s.ambiguous + Bit(i < |ring| && !ring[i].ambiguous),
                 peersEvicted := s.peersEvicted + Bit(Crowded(c.peers, addr)))
  {
    LookupRing(c, addr, now);
  }

  lemma LookupRing(c: Ctx, addr: nat, now: nat)
    requires |c.peers| > 0
    ensures Lookup(c.peers, BLANK, addr, now)[PlaceOf(c.peers, addr)].rec.ring == RingOf(c, addr) || addr == 0
  {
  }

  /** What the table makes of an ack. */
  function OutcomeOf(ops: seq<Op>, cs: seq<Ctx>, k: nat): AckResult
    requires k < |ops| && k < |cs| && |cs[k].peers| > 0
  {
    if ops[k].Receiving? then Ack(cs[k], ops[k].addr, ops[k].ack, ops[k].at).1 else NotAdvancing
  }

  datatype Sort = Samples | Unmatcheds | Ambiguous | OutOfRange

  predicate IsSort(r: AckResult, k: Sort) {
    match k
    case Samples => r.Sample?
    case Unmatcheds => r == Unmatched
    case Ambiguous => r == DiscardedAmbiguous
    case OutOfRange => r == DiscardedRange
  }

  /** How many of the first n operations are acks with that outcome. */
  ghost function Number(ops: seq<Op>, cs: seq<Ctx>, n: nat, k: Sort): nat
    requires n <= |ops| && |cs| == |ops| + 1 && forall i :: 0 <= i < |ops| ==> StepAt(ops, cs, i)
  {
    if n == 0 then 0
    else
      assert StepAt(ops, cs, n - 1);
      Number(ops, cs, n - 1, k) + Bit(IsSort(OutcomeOf(ops, cs, n - 1), k))
  }

  lemma ApplyCountsOutcome(c: Ctx, op: Op)
    requires |c.peers| > 0 && c.cap > 0
    ensures var s, r := c.st, if op.Receiving? then Ack(c, op.addr, op.ack, op.at).1 else NotAdvancing;
            var t := Apply(c, op).st;
            && t.samples == s.samples + Bit(IsSort(r, Samples))
            && t.unmatched == s.unmatched + Bit(IsSort(r, Unmatcheds))
            && t.discardedAmbig == s.discardedAmbig + Bit(IsSort(r, Ambiguous))
            && t.discardedRange == s.discardedRange + Bit(IsSort(r, OutOfRange))
  {
  }

  /** In every run each outcome is counted exactly as often as it occurred. */
  lemma {:induction false} OutcomesAreCounted(cap: nat, peers: nat, ops: seq<Op>, cs: seq<Ctx>, n: nat)
    requires IsRun(cap, peers, ops, cs) && n <= |ops|
    ensures var s := cs[n].st;
            && s.samples == Number(ops, cs, n, Samples) && s.unmatched == Number(ops, cs, n, Unmatcheds)
            && s.discardedAmbig == Number(ops, cs, n, Ambiguous) && s.discardedRange == Number(ops, cs, n, OutOfRange)
  {
    if n == 0 {
    } else {
      OutcomesAreCounted(cap, peers, ops, cs, n - 1);
      assert StepAt(ops, cs, n - 1);
      ApplyCountsOutcome(cs[n - 1], ops[n - 1]);
    }
  }
}
