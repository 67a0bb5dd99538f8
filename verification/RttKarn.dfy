/** Karn's rule over whole runs of one peer record: which samples can be trusted, and when. */
module RttKarn {
  import opened Serial
  import opened RttModel
  import opened RttSmoothing

  /** The record with its history: which event put each slot into the ring, how many slots overflow
      evicted, the samples taken, and the last event whose ack advanced (-1 before any). */
  datatype Traced = Traced(p: Record, from: seq<nat>, evicted: nat, samples: seq<nat>, ackedBy: int)

  ghost predicate Sized(t: Traced) { |t.from| == |t.p.ring| }

  const START := Traced(BLANK, [], 0, [], -1)

  /** Event k sends sn. */
  function SendStep(t: Traced, cap: nat, sn: u32, at: nat, k: nat): (u: Traced)
    requires cap > 0 && Sized(t)
    ensures Sized(u)
  {
    var (p, r) := OnSend(t.p, cap, sn, at);
    match r
    case Tracked => t.(p := p, from := t.from + [k])
    case TrackedEvicting => t.(p := p, from := t.from[1..] + [k], evicted := t.evicted + 1)
    case _ => t.(p := p)
  }

  /** Event k acks sn. */
  function AckStep(t: Traced, sn: u32, at: nat, k: nat): (u: Traced)
    requires Sized(t)
    ensures Sized(u)
  {
    var (p, r) := OnAck(t.p, sn, at);
    var u := t.(p := p, from := t.from[|t.from| - |p.ring|..]);
    match r
    case NotAdvancing => u
    case Sample(x) => u.(ackedBy := k, samples := t.samples + [x])
    case _ => u.(ackedBy := k)
  }

  function Step(t: Traced, cap: nat, e: Event, k: nat): (u: Traced)
    requires cap > 0 && Sized(t)
    ensures Sized(u)
  {
    match e
    case Sent(sn, at) => SendStep(t, cap, sn, at, k)
    case Acked(sn, at) => AckStep(t, sn, at, k)
  }

  ghost predicate StepAt(es: seq<Event>, cap: nat, ts: seq<Traced>, i: nat)
    requires cap > 0 && i < |es| && |ts| == |es| + 1
  {
    Sized(ts[i]) && ts[i + 1] == Step(ts[i], cap, es[i], i)
  }

  /** ts are the states of a record through the events of its lifetime. */
  ghost predicate IsRun(es: seq<Event>, cap: nat, ts: seq<Traced>) {
    && cap > 0 && |ts| == |es| + 1 && ts[0] == START
    && forall i :: 0 <= i < |es| ==> StepAt(es, cap, ts, i)
  }

  /** Every sequence of events has its run, which depends on nothing later. */
  function TracedAt(es: seq<Event>, cap: nat, n: nat): (t: Traced)
    requires cap > 0 && n <= |es|
    ensures Sized(t)
  {
    if n == 0 then START else Step(TracedAt(es, cap, n - 1), cap, es[n - 1], n - 1)
  }

  function History(es: seq<Event>, cap: nat): (ts: seq<Traced>)
    requires cap > 0
    ensures |ts| == |es| + 1
  {
    seq(|es| + 1, k requires 0 <= k <= |es| => TracedAt(es, cap, k))
  }

  lemma HistoryRun(es: seq<Event>, cap: nat)
    requires cap > 0
    ensures IsRun(es, cap, History(es, cap))
  {
    var ts := History(es, cap);
    forall i | 0 <= i < |es| ensures StepAt(es, cap, ts, i) {
      var k := i + 1;
      assert ts[i] == TracedAt(es, cap, i) && ts[k] == TracedAt(es, cap, k);
      HistoryStep(es, cap, ts, i, k);
    }
  }

  lemma HistoryStep(es: seq<Event>, cap: nat, ts: seq<Traced>, i: nat, k: nat)
    requires cap > 0 && i < |es| && k == i + 1 && |ts| == |es| + 1
    requires ts[i] == TracedAt(es, cap, i) && ts[k] == TracedAt(es, cap, k)
    ensures StepAt(es, cap, ts, i)
  {
    TracedNext(es, cap, i, k, ts[i], es[i]);
  }

  lemma TracedNext(es: seq<Event>, cap: nat, i: nat, k: nat, t: Traced, e: Event)
    requires cap > 0 && i < |es| && k == i + 1 && t == TracedAt(es, cap, i) && e == es[i]
    ensures TracedAt(es, cap, k) == Step(t, cap, e, i)
  {
  }

  lemma {:induction false} HistoryPrefix(es: seq<Event>, fs: seq<Event>, cap: nat, n: nat)
    requires cap > 0 && es <= fs && n <= |es|
    ensures TracedAt(es, cap, n) == TracedAt(fs, cap, n)
  {
    if n == 0 {
    } else {
      HistoryPrefix(es, fs, cap, n - 1);
      TracedNext(es, cap, n - 1, n, TracedAt(es, cap, n - 1), es[n - 1]);
      TracedNext(fs, cap, n - 1, n, TracedAt(es, cap, n - 1), es[n - 1]);
    }
  }

  /** Does the event push an outstanding sequence out of a full ring? */
  function Evictions(p: Record, cap: nat, e: Event): nat
    requires cap > 0
  {
    if e.Sent? && OnSend(p, cap, e.sn, e.at).1 == TrackedEvicting then 1 else 0
  }

  function Stepper(cap: nat): (Record, Event) -> Record
    requires cap > 0
  {
    (p: Record, e: Event) => After(p, cap, e)
  }

  /** The record of a step is where the event takes it. */
  lemma StepIsAfter(t: Traced, cap: nat, e: Event, k: nat)
    requires cap > 0 && Sized(t)
    ensures Step(t, cap, e, k).p == After(t.p, cap, e)
    ensures Step(t, cap, e, k).evicted == t.evicted + Evictions(t.p, cap, e)
  {
  }

  lemma {:induction false} HistoryFolds(es: seq<Event>, cap: nat, n: nat)
    requires cap > 0 && n <= |es|
    ensures TracedAt(es, cap, n).p == PeerTable.Fold(Stepper(cap), BLANK, es, n)
  {
    if n == 0 {
    } else {
      HistoryFolds(es, cap, n - 1);
      StepIsAfter(TracedAt(es, cap, n - 1), cap, es[n - 1], n - 1);
    }
  }

  /** What the record made of the ack that is event n. */
  function Outcome(es: seq<Event>, ts: seq<Traced>, n: nat): AckResult
    requires n < |es| && n < |ts|
  {
    OnAck(ts[n].p, es[n].sn, es[n].at).1
  }

  /** How often sn was sent in the first n events. */
  function Sends(es: seq<Event>, n: nat, sn: u32): nat
    requires n <= |es|
  {
    if n == 0 then 0 else Sends(es, n - 1, sn) + (if es[n - 1].Sent? && es[n - 1].sn == sn then 1 else 0)
  }

  // ---- What a slot remembers --------------------------------------------------------

  /** Slot i was put into the ring by a send of its sequence when the ring did not hold it, and
      unless it is marked ambiguous that sequence has not been sent since. */
  ghost predicate SlotTrue(es: seq<Event>, ts: seq<Traced>, n: nat, t: Traced, i: nat)
    requires n <= |es| && n <= |ts| && i < |t.from| && Sized(t)
  {
    var s, k := t.p.ring[i], t.from[i];
    && k < n && es[k] == Sent(s.sn, s.sent)
    && Find(ts[k].p.ring, s.sn, 0) == |ts[k].p.ring|
    && (!s.ambiguous ==> Sends(es, n, s.sn) == Sends(es, k, s.sn) + 1)
  }

  ghost predicate RingTrue(es: seq<Event>, ts: seq<Traced>, n: nat, t: Traced)
    requires n <= |es| && n <= |ts|
  {
    && Sized(t)
    && forall i :: 0 <= i < |t.from| ==> SlotTrue(es, ts, n, t, i)
  }

  /** No two slots hold the same sequence. */
  ghost predicate Distinct(ring: seq<Slot>) {
    forall i, j :: 0 <= i < j < |ring| ==> ring[i].sn != ring[j].sn
  }

  lemma SendStepTrue(es: seq<Event>, cap: nat, ts: seq<Traced>, n: nat)
    requires cap > 0 && n < |es| && n < |ts| && es[n].Sent?
    requires RingTrue(es, ts, n, ts[n]) && Distinct(ts[n].p.ring)
    ensures RingTrue(es, ts, n + 1, SendStep(ts[n], cap, es[n].sn, es[n].at, n))
    ensures Distinct(SendStep(ts[n], cap, es[n].sn, es[n].at, n).p.ring)
  {
    var t, sn := ts[n], es[n].sn;
    var u := SendStep(t, cap, sn, es[n].at, n);
    var off := if OnSend(t.p, cap, sn, es[n].at).1 == TrackedEvicting then 1 else 0;
    var m := n + 1;
    forall i | 0 <= i < |u.from|
      ensures SlotTrue(es, ts, m, u, i)
    {
      if i + off < |t.from| {
        assert SlotTrue(es, ts, n, t, i + off);
      }
    }
  }

  lemma AckStepTrue(es: seq<Event>, ts: seq<Traced>, n: nat)
    requires n < |es| && n < |ts| && es[n].Acked?
    requires RingTrue(es, ts, n, ts[n]) && Distinct(ts[n].p.ring)
    ensures RingTrue(es, ts, n + 1, AckStep(ts[n], es[n].sn, es[n].at, n))
    ensures Distinct(AckStep(ts[n], es[n].sn, es[n].at, n).p.ring)
  {
    var t := ts[n];
    var u := AckStep(t, es[n].sn, es[n].at, n);
    var off := |t.from| - |u.from|;
    var m := n + 1;
    forall i | 0 <= i < |u.from|
      ensures SlotTrue(es, ts, m, u, i)
    {
      assert SlotTrue(es, ts, n, t, i + off);
    }
    DistinctTail(t.p.ring, off);
  }

  lemma DistinctTail(ring: seq<Slot>, off: nat)
    requires Distinct(ring) && off <= |ring|
    ensures Distinct(ring[off..])
  {
  }

  lemma {:induction false} RunTrue(es: seq<Event>, cap: nat, ts: seq<Traced>, n: nat)
    requires IsRun(es, cap, ts) && n <= |es|
    ensures RingTrue(es, ts, n, ts[n]) && Distinct(ts[n].p.ring)
  {
    if n == 0 {
    } else {
      RunTrue(es, cap, ts, n - 1);
      assert StepAt(es, cap, ts, n - 1);
      if es[n - 1].Sent? {
        SendStepTrue(es, cap, ts, n - 1);
      } else {
        AckStepTrue(es, ts, n - 1);
      }
    }
  }

  // ---- What an ack uses up ------------------------------------------------------------

  /** The ack that is event n matched a slot: whatever came of it, the slot is used up. */
  ghost predicate Matches(es: seq<Event>, ts: seq<Traced>, n: nat)
    requires n < |es| && n < |ts|
  {
    && es[n].Acked? && Sized(ts[n])
    && Outcome(es, ts, n) != NotAdvancing && Outcome(es, ts, n) != Unmatched
  }

  /** The event that put the matched slot into the ring. */
  ghost function Origin(es: seq<Event>, ts: seq<Traced>, n: nat): nat
    requires n < |es| && n < |ts| && Matches(es, ts, n)
  {
    ts[n].from[Find(ts[n].p.ring, es[n].sn, 0)]
  }

  /** The slots came into the ring in the order they lie in, all after event k and before event n. */
  ghost predicate InTurn(from: seq<nat>, k: int, n: nat) {
    && (forall i :: 0 <= i < |from| ==> k < from[i] < n)
    && (forall i, j :: 0 <= i < j < |from| ==> from[i] < from[j])
  }

  /** An event drops slots from the front and may add its own at the end. */
  ghost predicate Slides(from: seq<nat>, to: seq<nat>, off: nat, n: nat) {
    off <= |from| && (to == from[off..] || to == from[off..] + [n])
  }

  lemma StepSlides(t: Traced, cap: nat, e: Event, n: nat)
    requires cap > 0 && Sized(t)
    ensures exists off :: Slides(t.from, Step(t, cap, e, n).from, off, n)
  {
    var u := Step(t, cap, e, n);
    if e.Sent? {
      SendSlides(t, cap, e.sn, e.at, n);
    } else {
      assert Slides(t.from, u.from, |t.from| - |u.from|, n);
    }
  }

  lemma SendSlides(t: Traced, cap: nat, sn: u32, at: nat, n: nat)
    requires cap > 0 && Sized(t)
    ensures exists off :: Slides(t.from, SendStep(t, cap, sn, at, n).from, off, n)
  {
    var u := SendStep(t, cap, sn, at, n);
    assert Slides(t.from, u.from, if u.evicted > t.evicted then 1 else 0, n);
  }

  lemma SlideInTurn(from: seq<nat>, to: seq<nat>, k: int, n: nat)
    requires InTurn(from, k, n) && k < n && exists off :: Slides(from, to, off, n)
    ensures InTurn(to, k, n + 1)
  {
  }

  lemma StepInTurn(es: seq<Event>, cap: nat, ts: seq<Traced>, k: int, m: nat, n: nat)
    requires IsRun(es, cap, ts) && m < |es| && n == m + 1
    requires InTurn(ts[m].from, k, m) && k < m
    ensures InTurn(ts[n].from, k, n)
  {
    assert StepAt(es, cap, ts, m);
    StepSlides(ts[m], cap, es[m], m);
    SlideInTurn(ts[m].from, ts[n].from, k, m);
  }

  lemma {:induction false} RunInTurn(es: seq<Event>, cap: nat, ts: seq<Traced>, n: nat)
    requires IsRun(es, cap, ts) && n <= |es|
    ensures InTurn(ts[n].from, -1, n)
  {
    if n == 0 {
    } else {
      RunInTurn(es, cap, ts, n - 1);
      StepInTurn(es, cap, ts, -1, n - 1, n);
    }
  }

  /** A match leaves only slots younger than the one it used up. */
  lemma MatchDropsPrefix(es: seq<Event>, cap: nat, ts: seq<Traced>, m: nat)
    requires IsRun(es, cap, ts) && m < |es| && Matches(es, ts, m)
    ensures Origin(es, ts, m) < m && InTurn(ts[m + 1].from, Origin(es, ts, m), m + 1)
  {
    RunInTurn(es, cap, ts, m);
    assert StepAt(es, cap, ts, m);
  }

  lemma {:induction false} StaysBeyond(es: seq<Event>, cap: nat, ts: seq<Traced>, k: nat, m: nat, n: nat)
    requires IsRun(es, cap, ts) && k < m <= n <= |es| && InTurn(ts[m].from, k, m)
    ensures InTurn(ts[n].from, k, n)
    decreases n
  {
    if n == m {
    } else {
      StaysBeyond(es, cap, ts, k, m, n - 1);
      StepInTurn(es, cap, ts, k, n - 1, n);
    }
  }

  /** Two acks that match, sampled or not, use up the sends of two different events, in order: no
      tracked send is ever measured twice. */
  lemma MatchesDiffer(es: seq<Event>, cap: nat, ts: seq<Traced>, m: nat, n: nat)
    requires IsRun(es, cap, ts) && m < n < |es| && Matches(es, ts, m) && Matches(es, ts, n)
    ensures Origin(es, ts, m) < Origin(es, ts, n) < n
  {
    MatchDropsPrefix(es, cap, ts, m);
    StaysBeyond(es, cap, ts, Origin(es, ts, m), m + 1, n);
  }

  // ---- Every sample, in every run ------------------------------------------------------

  /** The slot an ack uses up is that of a send of its sequence, from which any sample is timed. */
  lemma OriginSent(es: seq<Event>, cap: nat, ts: seq<Traced>, n: nat)
    requires IsRun(es, cap, ts) && n < |es| && Matches(es, ts, n)
    ensures var k, r := Origin(es, ts, n), Outcome(es, ts, n);
            && k < n && es[k].Sent? && es[k].sn == es[n].sn
            && (r.Sample? ==> es[k].at + r.rtt == es[n].at)
  {
    RunTrue(es, cap, ts, n);
    assert SlotTrue(es, ts, n, ts[n], Find(ts[n].p.ring, es[n].sn, 0));
  }

  /** Event k sends a sequence again after the record has forgotten it, so it is tracked anew. */
  ghost predicate Retracks(es: seq<Event>, ts: seq<Traced>, k: nat)
    requires k < |es| && k < |ts|
  {
    && es[k].Sent? && Sends(es, k, es[k].sn) > 0
    && Find(ts[k].p.ring, es[k].sn, 0) == |ts[k].p.ring|
  }

  /** With no hypothesis at all: a sample for an ack is the time since its sequence was last sent,
      with exactly one send since its slot was tracked by event k; and it is the time since the one
      and only send so far exactly when k was not a resend of a forgotten sequence. */
  lemma SampleSoundIff(es: seq<Event>, cap: nat, ts: seq<Traced>, n: nat) returns (k: nat)
    requires IsRun(es, cap, ts) && n < |es| && es[n].Acked? && Outcome(es, ts, n).Sample?
    ensures k < n && es[k] == Sent(es[n].sn, es[n].at - Outcome(es, ts, n).rtt)
    ensures Sends(es, n, es[n].sn) == Sends(es, k, es[n].sn) + 1
    ensures Outcome(es, ts, n).rtt <= MAX_SAMPLE_MS
    ensures Sends(es, n, es[n].sn) == 1 <==> !Retracks(es, ts, k)
    ensures Matches(es, ts, n) && k == Origin(es, ts, n)
  {
    RunTrue(es, cap, ts, n);
    var i := Find(ts[n].p.ring, es[n].sn, 0);
    k := ts[n].from[i];
    assert SlotTrue(es, ts, n, ts[n], i);
  }

  /** The estimate and the session spread are those of the run's samples. */
  ghost predicate Summarised(t: Traced) {
    && t.p.total == SpreadRun(t.samples, |t.samples|)
    && t.p.est == if t.samples == [] then NoEstimate else IntRun(t.samples, |t.samples|)
  }

  lemma {:induction false} RecordSummarisesSamples(es: seq<Event>, cap: nat, ts: seq<Traced>, n: nat)
    requires IsRun(es, cap, ts) && n <= |es|
    ensures Summarised(ts[n])
  {
    if n == 0 {
    } else {
      RecordSummarisesSamples(es, cap, ts, n - 1);
      assert StepAt(es, cap, ts, n - 1);
      StepSummarises(ts[n - 1], cap, es[n - 1], n - 1);
    }
  }

  /** And so is the window's. */
  lemma {:induction false} WindowIsTotal(es: seq<Event>, cap: nat, ts: seq<Traced>, n: nat)
    requires IsRun(es, cap, ts) && n <= |es|
    ensures ts[n].p.window == ts[n].p.total
  {
    if n == 0 {
    } else {
      WindowIsTotal(es, cap, ts, n - 1);
      assert StepAt(es, cap, ts, n - 1);
    }
  }

  lemma StepSummarises(t: Traced, cap: nat, e: Event, k: nat)
    requires cap > 0 && Sized(t) && Summarised(t)
    ensures Summarised(Step(t, cap, e, k))
  {
    if e.Acked? {
      var r := OnAck(t.p, e.sn, e.at).1;
      if r.Sample? {
        SampleSummarised(t, Step(t, cap, e, k), r.rtt);
      }
    }
  }

  lemma SampleSummarised(t: Traced, u: Traced, r: nat)
    requires Summarised(t) && u.samples == t.samples + [r]
    requires u.p.total == Grow(t.p.total, r) && u.p.est == Smooth(t.p.est, r)
    ensures Summarised(u)
  {
    SummaryNext(t.samples, r);
  }

  lemma SummaryNext(rs: seq<nat>, r: nat)
    ensures SpreadRun(rs + [r], |rs| + 1) == Grow(SpreadRun(rs, |rs|), r)
    ensures IntRun(rs + [r], |rs| + 1) == Smooth(if rs == [] then NoEstimate else IntRun(rs, |rs|), r)
  {
    SummaryPrefix(rs, r, |rs|);
  }

  lemma {:induction false} SummaryPrefix(rs: seq<nat>, r: nat, n: nat)
    requires n <= |rs|
    ensures SpreadRun(rs + [r], n) == SpreadRun(rs, n)
    ensures n > 0 ==> IntRun(rs + [r], n) == IntRun(rs, n)
  {
    if n == 0 {
    } else {
      SummaryPrefix(rs, r, n - 1);
    }
  }
}
