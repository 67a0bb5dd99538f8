/** The round-trip sampler as a function on values: a ring of outstanding sequences per peer,
    Karn's filter, and the smoothed estimate of RFC 6298. */
module RttModel {
  import opened PeerTable
  import opened Serial

  const MAX_SAMPLE_MS: nat := 30000

  /** One of our own outstanding sequences. */
  datatype Slot = Slot(sn: u32, sent: nat, ambiguous: bool)

  datatype Estimate = NoEstimate | Estimate(srtt: nat, rttvar: nat)

  /** Running count, sum, least and greatest of the samples; the least reads 0 while there is none. */
  datatype Spread = Spread(count: nat, sum: nat, min: nat, max: nat)

  datatype Record = Record(ring: seq<Slot>, acked: bool, lastAck: u32,
                           total: Spread, window: Spread, est: Estimate)

  datatype Stats = Stats(tracked: nat, ambiguous: nat, evicted: nat, acks: nat, samples: nat,
                         unmatched: nat, discardedAmbig: nat, discardedRange: nat, peersEvicted: nat)

  datatype Ctx = Ctx(cap: nat, peers: seq<Entry<Record>>, st: Stats)

  const NO_SPREAD := Spread(0, 0, 0, 0)
  const NO_STATS := Stats(0, 0, 0, 0, 0, 0, 0, 0, 0)

  const BLANK := Record([], false, 0, NO_SPREAD, NO_SPREAD, NoEstimate)

  function Find(ring: seq<Slot>, sn: u32, i: nat): (r: nat)
    requires i <= |ring|
    ensures i <= r <= |ring|
    ensures r < |ring| ==> ring[r].sn == sn
    ensures forall j :: i <= j < r ==> ring[j].sn != sn
    decreases |ring| - i
  {
    if i == |ring| || ring[i].sn == sn then i else Find(ring, sn, i + 1)
  }

  // ---- Sending ------------------------------------------------------------------

  datatype SendResult = Tracked | TrackedEvicting | Resent | ResentAgain

  function OnSend(p: Record, cap: nat, sn: u32, now: nat): (Record, SendResult)
    requires cap > 0
  {
    var i := Find(p.ring, sn, 0);
    if i < |p.ring| then
      if p.ring[i].ambiguous then (p, ResentAgain)
      else (p.(ring := p.ring[i := p.ring[i].(ambiguous := true)]), Resent)
    else if |p.ring| >= cap then
      (p.(ring := p.ring[1..] + [Slot(sn, now, false)]), TrackedEvicting)
    else (p.(ring := p.ring + [Slot(sn, now, false)]), Tracked)
  }

  function CountSend(s: Stats, r: SendResult): Stats {
    match r
    case Tracked => s.(tracked := s.tracked + 1)
    case TrackedEvicting => s.(tracked := s.tracked + 1, evicted := s.evicted + 1)
    case Resent => s.(ambiguous := s.ambiguous + 1)
    case ResentAgain => s
  }

  // ---- Receiving ------------------------------------------------------------------

  datatype AckResult = NotAdvancing | Unmatched | DiscardedAmbiguous | DiscardedRange | Sample(rtt: nat)

  function Grow(s: Spread, r: nat): Spread {
    Spread(s.count + 1, s.sum + r, if s.min == 0 || r < s.min then r else s.min,
           if r > s.max then r else s.max)
  }

  function AbsDiff(a: nat, b: nat): nat { if a > b then a - b else b - a }

  /** RFC 6298 section 2, in whole milliseconds: the variation first, against the old estimate. */
  function Smooth(e: Estimate, r: nat): Estimate {
    match e
    case NoEstimate => Estimate(r, r / 2)
    case Estimate(s, v) => Estimate((7 * s + r) / 8, (3 * v + AbsDiff(r, s)) / 4)
  }

  function TakeSample(p: Record, r: nat): Record {
    p.(total := Grow(p.total, r), window := Grow(p.window, r), est := Smooth(p.est, r))
  }

  /** Classify a matched slot. */
  function Measure(s: Slot, now: nat): AckResult {
    if s.ambiguous then DiscardedAmbiguous
    else if now < s.sent || now - s.sent > MAX_SAMPLE_MS then DiscardedRange
    else Sample(now - s.sent)
  }

  function OnAck(p: Record, ack: u32, now: nat): (Record, AckResult) {
    if p.acked && Cmp(ack, p.lastAck) <= 0 then (p, NotAdvancing)
    else
      var q := p.(lastAck := ack, acked := true);
      var i := Find(p.ring, ack, 0);
      if i == |p.ring| then (q, Unmatched)
      else
        var r := Measure(p.ring[i], now);
        var kept := q.(ring := p.ring[i + 1..]);
        (if r.Sample? then TakeSample(kept, r.rtt) else kept, r)
  }

  function CountAck(s: Stats, r: AckResult): Stats {
    match r
    case NotAdvancing => s
    case Unmatched => s.(acks := s.acks + 1, unmatched := s.unmatched + 1)
    case DiscardedAmbiguous => s.(acks := s.acks + 1, discardedAmbig := s.discardedAmbig + 1)
    case DiscardedRange => s.(acks := s.acks + 1, discardedRange := s.discardedRange + 1)
    case Sample(_) => s.(acks := s.acks + 1, samples := s.samples + 1)
  }

  // ---- One record -----------------------------------------------------------------------

  /** A reliable send of ours, or an incoming ack. */
  datatype Event = Sent(sn: u32, at: nat) | Acked(sn: u32, at: nat)

  function After(p: Record, cap: nat, e: Event): Record
    requires cap > 0
  {
    match e
    case Sent(sn, at) => OnSend(p, cap, sn, at).0
    case Acked(sn, at) => OnAck(p, sn, at).0
  }

  // ---- The peer table -------------------------------------------------------------------

  function CountLookup(c: Ctx, addr: nat): Stats {
    c.st.(peersEvicted := c.st.peersEvicted + (if Crowded(c.peers, addr) then 1 else 0))
  }

  /** A reliable datagram of ours went out. */
  function Send(c: Ctx, addr: nat, sn: u32, now: nat): Ctx
    requires |c.peers| > 0 && c.cap > 0
  {
    if addr == 0 then c
    else
      var i, t := PlaceOf(c.peers, addr), Lookup(c.peers, BLANK, addr, now);
      var (p, r) := OnSend(t[i].rec, c.cap, sn, now);
      c.(peers := Store(t, i, p), st := CountSend(CountLookup(c, addr), r))
  }

  /** A datagram carrying an ack came in. */
  function Ack(c: Ctx, addr: nat, ack: u32, now: nat): (Ctx, AckResult)
    requires |c.peers| > 0
  {
    if addr == 0 then (c, NotAdvancing)
    else
      var i, t := PlaceOf(c.peers, addr), Lookup(c.peers, BLANK, addr, now);
      var (p, r) := OnAck(t[i].rec, ack, now);
      (c.(peers := Store(t, i, p), st := CountAck(CountLookup(c, addr), r)), r)
  }

  /** Forget one peer. */
  function Purge(c: Ctx, addr: nat): Ctx {
    c.(peers := Forget(c.peers, BLANK, addr))
  }
}
