/** The one-second burst meter: a streaming window against the batch statistics it stands for. */
module BurstMeter {
  const BURST_PPS: nat := 100
  const SECOND: nat := 1000

  datatype Meter = Meter(winStart: nat, winPackets: nat, winBytes: nat, packets: nat, bytes: nat,
                         peakPps: nat, peakBps: nat, burstSeconds: nat)

  function Start(now: nat): Meter { Meter(now, 0, 0, 0, 0, 0, 0, 0) }

  function Max(a: nat, b: nat): nat { if a >= b then a else b }

  /** Once a second is over its count becomes the last one; the next window starts on the same grid. */
  function Tick(m: Meter, now: nat): Meter
    requires now >= m.winStart
  {
    if now - m.winStart < SECOND then m
    else
      m.(peakPps := Max(m.peakPps, m.winPackets), peakBps := Max(m.peakBps, m.winBytes),
         burstSeconds := m.burstSeconds + (if m.winPackets > BURST_PPS then 1 else 0),
         winStart := now - (now - m.winStart) % SECOND, winPackets := 0, winBytes := 0)
  }

  function Observe(m: Meter, len: nat, now: nat): Meter
    requires now >= m.winStart
  {
    var t := Tick(m, now);
    t.(winPackets := t.winPackets + 1, winBytes := t.winBytes + len,
       packets := t.packets + 1, bytes := t.bytes + len)
  }

  // ---- The batch statistics ------------------------------------------------------

  /** A datagram of len bytes seen at time at, or a bare tick. */
  datatype Reading = Seen(len: nat, at: nat) | Bare(at: nat)

  predicate InOrder(h: seq<Reading>, t0: nat) {
    && (forall i :: 0 <= i < |h| ==> t0 <= h[i].at)
    && (forall i, j :: 0 <= i < j < |h| ==> h[i].at <= h[j].at)
  }

  /** Which second after t0 a time falls in. */
  function Bucket(t0: nat, t: nat): nat
    requires t0 <= t
  {
    (t - t0) / SECOND
  }

  function PacketsIn(h: seq<Reading>, n: nat, t0: nat, k: nat): nat
    requires n <= |h| && InOrder(h, t0)
  {
    if n == 0 then 0
    else PacketsIn(h, n - 1, t0, k)
         + (if h[n - 1].Seen? && Bucket(t0, h[n - 1].at) == k then 1 else 0)
  }

  function BytesIn(h: seq<Reading>, n: nat, t0: nat, k: nat): nat
    requires n <= |h| && InOrder(h, t0)
  {
    if n == 0 then 0
    else BytesIn(h, n - 1, t0, k)
         + (if h[n - 1].Seen? && Bucket(t0, h[n - 1].at) == k then h[n - 1].len else 0)
  }

  /** Over the first k seconds: the busiest one's packets and bytes, and how many were bursts. */
  function PeakPackets(h: seq<Reading>, n: nat, t0: nat, k: nat): nat
    requires n <= |h| && InOrder(h, t0)
  {
    if k == 0 then 0 else Max(PeakPackets(h, n, t0, k - 1), PacketsIn(h, n, t0, k - 1))
  }

  function PeakBytes(h: seq<Reading>, n: nat, t0: nat, k: nat): nat
    requires n <= |h| && InOrder(h, t0)
  {
    if k == 0 then 0 else Max(PeakBytes(h, n, t0, k - 1), BytesIn(h, n, t0, k - 1))
  }

  function Bursts(h: seq<Reading>, n: nat, t0: nat, k: nat): nat
    requires n <= |h| && InOrder(h, t0)
  {
    if k == 0 then 0
    else Bursts(h, n, t0, k - 1) + (if PacketsIn(h, n, t0, k - 1) > BURST_PPS then 1 else 0)
  }

  // ---- Streaming equals batch -------------------------------------------------------

  function Step(m: Meter, r: Reading): Meter
    requires r.at >= m.winStart
  {
    match r
    case Seen(len, at) => Observe(m, len, at)
    case Bare(at) => Tick(m, at)
  }

  /** m says about the first n readings, as of second k, what the batch statistics say. */
  ghost predicate Matches(m: Meter, h: seq<Reading>, n: nat, t0: nat, k: nat)
    requires n <= |h| && InOrder(h, t0)
  {
    && m.winStart == t0 + SECOND * k
    && m.winPackets == PacketsIn(h, n, t0, k) && m.winBytes == BytesIn(h, n, t0, k)
    && m.peakPps == PeakPackets(h, n, t0, k) && m.peakBps == PeakBytes(h, n, t0, k)
    && m.burstSeconds == Bursts(h, n, t0, k)
  }

  lemma {:induction false} LaterBucketsEmpty(h: seq<Reading>, n: nat, t0: nat, k: nat)
    requires n <= |h| && InOrder(h, t0)
    requires n > 0 ==> Bucket(t0, h[n - 1].at) < k
    ensures PacketsIn(h, n, t0, k) == 0 && BytesIn(h, n, t0, k) == 0
  {
    if n == 0 {
    } else {
      assert n > 1 ==> h[n - 2].at <= h[n - 1].at;
      LaterBucketsEmpty(h, n - 1, t0, k);
    }
  }

  /** Seconds after the last reading add nothing to the statistics, however many there are. */
  lemma {:induction false} IdleSecondsAddNothing(h: seq<Reading>, n: nat, t0: nat, j: nat, k: nat)
    requires n <= |h| && InOrder(h, t0) && j <= k
    requires n > 0 ==> Bucket(t0, h[n - 1].at) < j
    ensures PeakPackets(h, n, t0, k) == PeakPackets(h, n, t0, j)
    ensures PeakBytes(h, n, t0, k) == PeakBytes(h, n, t0, j)
    ensures Bursts(h, n, t0, k) == Bursts(h, n, t0, j)
    decreases k
  {
    if j == k {
    } else {
      IdleSecondsAddNothing(h, n, t0, j, k - 1);
      LaterBucketsEmpty(h, n, t0, k - 1);
    }
  }

  /** Reading n leaves what happened in the seconds before its own alone. */
  lemma {:induction false} EarlierBucketsStay(h: seq<Reading>, n: nat, t0: nat, k: nat)
    requires 0 < n <= |h| && InOrder(h, t0) && k <= Bucket(t0, h[n - 1].at)
    ensures PeakPackets(h, n, t0, k) == PeakPackets(h, n - 1, t0, k)
    ensures PeakBytes(h, n, t0, k) == PeakBytes(h, n - 1, t0, k)
    ensures Bursts(h, n, t0, k) == Bursts(h, n - 1, t0, k)
  {
    if k == 0 {
    } else {
      EarlierBucketsStay(h, n, t0, k - 1);
    }
  }

  lemma BucketSpan(t0: nat, t: nat, k: nat)
    requires t0 <= t
    ensures Bucket(t0, t) == k <==> t0 + SECOND * k <= t < t0 + SECOND * k + SECOND
    ensures (t - t0) % SECOND == t - t0 - SECOND * Bucket(t0, t)
  {
  }

  lemma TickWindow(m: Meter, t0: nat, j: nat, now: nat)
    requires t0 <= now && m.winStart == t0 + SECOND * j && j <= Bucket(t0, now)
    ensures Tick(m, now).winStart == t0 + SECOND * Bucket(t0, now)
    ensures Bucket(t0, now) == j <==> now - m.winStart < SECOND
  {
    BucketSpan(t0, now, j);
    var k := Bucket(t0, now);
    assert now - m.winStart == (now - t0 - SECOND * k) + SECOND * (k - j);
    assert (now - m.winStart) % SECOND == (now - t0 - SECOND * k) % SECOND;
  }

  /** A tick brings the meter up to the second it happens in. */
  lemma TickMatches(m: Meter, h: seq<Reading>, n: nat, t0: nat, j: nat, now: nat)
    requires n <= |h| && InOrder(h, t0) && t0 <= now && Matches(m, h, n, t0, j)
    requires n > 0 ==> Bucket(t0, h[n - 1].at) <= j
    requires j <= Bucket(t0, now)
    ensures Matches(Tick(m, now), h, n, t0, Bucket(t0, now))
  {
    var k := Bucket(t0, now);
    TickWindow(m, t0, j, now);
    if k > j {
      IdleSecondsAddNothing(h, n, t0, j + 1, k);
      LaterBucketsEmpty(h, n, t0, k);
    }
  }

  lemma StepMatches(m: Meter, h: seq<Reading>, n: nat, t0: nat, j: nat)
    requires 0 < n <= |h| && InOrder(h, t0) && Matches(m, h, n - 1, t0, j)
    requires n > 1 ==> Bucket(t0, h[n - 2].at) <= j
    requires j <= Bucket(t0, h[n - 1].at)
    ensures m.winStart <= h[n - 1].at
    ensures Matches(Step(m, h[n - 1]), h, n, t0, Bucket(t0, h[n - 1].at))
  {
    var now := h[n - 1].at;
    BucketSpan(t0, now, Bucket(t0, now));
    TickMatches(m, h, n - 1, t0, j, now);
    EarlierBucketsStay(h, n, t0, Bucket(t0, now));
  }

  /** The second the meter is in after n readings. */
  function Second(h: seq<Reading>, n: nat, t0: nat): nat
    requires n <= |h| && InOrder(h, t0)
  {
    if n == 0 then 0 else Bucket(t0, h[n - 1].at)
  }

  lemma BucketMonotone(t0: nat, a: nat, b: nat)
    requires t0 <= a <= b
    ensures Bucket(t0, a) <= Bucket(t0, b)
  {
  }

  /** For any readings in clock order, across arbitrary idle gaps, the streaming meter equals the
      batch statistics over whole seconds from its start. */
  lemma {:induction false} StreamingEqualsBatch(ms: seq<Meter>, h: seq<Reading>, n: nat, t0: nat)
    requires InOrder(h, t0) && n <= |h| && |ms| == |h| + 1 && ms[0] == Start(t0)
    requires forall i :: 0 <= i < |h| ==> ms[i].winStart <= h[i].at ==> ms[i + 1] == Step(ms[i], h[i])
    ensures Matches(ms[n], h, n, t0, Second(h, n, t0))
    ensures n < |h| ==> ms[n].winStart <= h[n].at
  {
    if n == 0 {
    } else {
      StreamingEqualsBatch(ms, h, n - 1, t0);
      if n > 1 {
        BucketMonotone(t0, h[n - 2].at, h[n - 1].at);
      }
      StepMatches(ms[n - 1], h, n, t0, Second(h, n - 1, t0));
      assert ms[n - 1 + 1] == Step(ms[n - 1], h[n - 1]);
      BucketSpan(t0, h[n - 1].at, Second(h, n, t0));
    }
  }

  /** How many datagrams the first n readings saw, and their bytes. */
  function Packets(h: seq<Reading>, n: nat): nat
    requires n <= |h|
  {
    if n == 0 then 0 else Packets(h, n - 1) + (if h[n - 1].Seen? then 1 else 0)
  }

  function Bytes(h: seq<Reading>, n: nat): nat
    requires n <= |h|
  {
    if n == 0 then 0 else Bytes(h, n - 1) + (if h[n - 1].Seen? then h[n - 1].len else 0)
  }

  /** And the totals count every datagram once. */
  lemma {:induction false} TotalsAreTrue(ms: seq<Meter>, h: seq<Reading>, n: nat, t0: nat)
    requires InOrder(h, t0) && n <= |h| && |ms| == |h| + 1 && ms[0] == Start(t0)
    requires forall i :: 0 <= i < |h| ==> ms[i].winStart <= h[i].at ==> ms[i + 1] == Step(ms[i], h[i])
    ensures ms[n].packets == Packets(h, n) && ms[n].bytes == Bytes(h, n)
  {
    if n == 0 {
    } else {
      TotalsAreTrue(ms, h, n - 1, t0);
      StreamingEqualsBatch(ms, h, n - 1, t0);
      assert ms[n - 1 + 1] == Step(ms[n - 1], h[n - 1]);
    }
  }
}
