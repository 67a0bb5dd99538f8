/** The duplicate suppressor as a function on values: a ring of recently sent sequences per peer,
    each with its backoff window, and the in-band epoch reset. */
module DampenModel {
  import opened Serial
  import opened PeerTable

  const FLOOR_MS: nat := 60
  const MAX_MS: nat := 400

  /** One sequence sent: when it last actually went out, and how long its copies are redundant. */
  datatype Slot = Slot(sn: u32, sent: nat, window: nat)

  datatype Record = Record(rtt: u32, high: u32, ring: seq<Slot>)

  datatype Stats = Stats(seen: nat, suppressed: nat, bytesSaved: nat, peersEvicted: nat,
                         short: nat, unreliable: nat, tblFull: nat, resets: nat)

  datatype Ctx = Ctx(cap: nat, peers: seq<Entry<Record>>, st: Stats)

  const NO_STATS := Stats(0, 0, 0, 0, 0, 0, 0, 0)

  const BLANK := Record(0, 0, [])

  /** 1.2 times the estimate, in 32-bit arithmetic, held between the floor and the ceiling. */
  function WindowFor(rtt: u32): (w: nat)
    ensures FLOOR_MS <= w <= MAX_MS
    ensures 12 * rtt < MOD && FLOOR_MS < w < MAX_MS ==> 10 * w <= 12 * rtt < 10 * w + 10
    ensures 12 * rtt < MOD ==> (w == FLOOR_MS <==> 12 * rtt < 10 * FLOOR_MS + 10)
    ensures 12 * rtt < MOD ==> (w == MAX_MS <==> 12 * rtt >= 10 * MAX_MS)
  {
    var w := (rtt * 12) % MOD / 10;
    if w < FLOOR_MS then FLOOR_MS else if w > MAX_MS then MAX_MS else w
  }

  function Doubled(w: nat): nat { if 2 * w > MAX_MS then MAX_MS else 2 * w }

  function Find(ring: seq<Slot>, sn: u32, i: nat): (r: nat)
    requires i <= |ring|
    ensures i <= r <= |ring|
    ensures r < |ring| ==> ring[r].sn == sn
    ensures forall j :: i <= j < r ==> ring[j].sn != sn
    decreases |ring| - i
  {
    if i == |ring| || ring[i].sn == sn then i else Find(ring, sn, i + 1)
  }

  /** A sequence below the head reads as the peer having restarted its counter. */
  predicate Resets(ring: seq<Slot>, sn: u32) {
    ring != [] && Cmp(sn, ring[0].sn) < 0
  }

  datatype Copy = First | Resent | Suppressed

  predicate Inside(e: Slot, now: nat) {
    now >= e.sent && now - e.sent < e.window
  }

  /** What becomes of a copy of sn, given the ring after any reset. */
  function Classify(ring: seq<Slot>, sn: u32, now: nat): Copy {
    var i := Find(ring, sn, 0);
    if i == |ring| then First else if Inside(ring[i], now) then Suppressed else Resent
  }

  /** The ring after the copy. */
  function Recorded(ring: seq<Slot>, cap: nat, rtt: u32, sn: u32, now: nat): seq<Slot>
    requires cap > 0
  {
    var i := Find(ring, sn, 0);
    match Classify(ring, sn, now)
    case First => (if |ring| >= cap then ring[1..] else ring) + [Slot(sn, now, WindowFor(rtt))]
    case Resent => ring[i := Slot(sn, now, Doubled(ring[i].window))]
    case Suppressed => ring
  }

  function AfterReset(ring: seq<Slot>, sn: u32): seq<Slot> {
    if Resets(ring, sn) then [] else ring
  }

  function HighAfter(p: Record, sn: u32): u32 {
    if Resets(p.ring, sn) || Cmp(sn, p.high) > 0 then sn else p.high
  }

  /** One reliable copy of sn is about to go out. */
  function OnCopy(p: Record, cap: nat, sn: u32, now: nat): (Record, Copy)
    requires cap > 0
  {
    var ring := AfterReset(p.ring, sn);
    (p.(high := HighAfter(p, sn), ring := Recorded(ring, cap, p.rtt, sn, now)), Classify(ring, sn, now))
  }

  // ---- The peer table -----------------------------------------------------------

  /** Count a copy of len bytes, from what the ring was and what became of it. */
  function CountCopy(s: Stats, ring: seq<Slot>, cap: nat, sn: u32, len: nat, r: Copy): Stats {
    s.(resets := s.resets + (if Resets(ring, sn) then 1 else 0),
       tblFull := s.tblFull + (if r == First && |AfterReset(ring, sn)| >= cap then 1 else 0),
       suppressed := s.suppressed + (if r == Suppressed then 1 else 0),
       bytesSaved := s.bytesSaved + (if r == Suppressed then len else 0))
  }

  /** Decide about one reliable datagram of len bytes. */
  function Admit(c: Ctx, addr: nat, sn: u32, len: nat, now: nat): (Ctx, Copy)
    requires |c.peers| > 0 && c.cap > 0
  {
    var i, t := PlaceOf(c.peers, addr), Lookup(c.peers, BLANK, addr, now);
    var (p, r) := OnCopy(t[i].rec, c.cap, sn, now);
    var st := c.st.(peersEvicted := c.st.peersEvicted + (if Crowded(c.peers, addr) then 1 else 0));
    (c.(peers := Store(t, i, p), st := CountCopy(st, t[i].rec.ring, c.cap, sn, len, r)), r)
  }

  /** The moving average pulled an eighth of the way, rounded down, toward a sample. */
  function Averaged(rtt: u32, sample: u32): (r: u32)
    ensures rtt == 0 ==> r == sample
    ensures rtt > 0 ==> (if rtt <= sample then rtt <= r <= sample else sample <= r <= rtt)
    ensures rtt > 0 ==> 8 * r <= 7 * rtt + sample < 8 * r + 8
  {
    if rtt == 0 then sample else rtt + (sample - rtt) / 8
  }

  /** Time an exact-match ack against the last actual send. */
  function OnAck(p: Record, sn: u32, now: nat): Record {
    var i := Find(p.ring, sn, 0);
    if i == |p.ring| then p
    else p.(rtt := Averaged(p.rtt, if now > p.ring[i].sent then (now - p.ring[i].sent) % MOD else 0))
  }

  function ObserveAck(c: Ctx, addr: nat, sn: u32, now: nat): Ctx {
    var at := FindAddr(c.peers, addr, 0);
    if at == |c.peers| then c else c.(peers := Store(c.peers, at, OnAck(c.peers[at].rec, sn, now)))
  }

  function SetRtt(c: Ctx, addr: nat, rtt: u32): Ctx {
    var at := FindAddr(c.peers, addr, 0);
    if rtt == 0 || at == |c.peers| then c
    else c.(peers := Store(c.peers, at, c.peers[at].rec.(rtt := rtt)))
  }

  function Purge(c: Ctx, addr: nat): Ctx {
    c.(peers := Forget(c.peers, BLANK, addr))
  }

  // ---- One record ----------------------------------------------------------------

  /** What happens to a peer's record: a reliable copy is about to go out, an ack of one of our
      sequences came in, or an estimate was measured elsewhere. */
  datatype Event = Attempt(sn: u32, at: nat) | Acked(sn: u32, at: nat) | Measured(rtt: u32)

  function After(p: Record, cap: nat, e: Event): Record
    requires cap > 0
  {
    match e
    case Attempt(sn, at) => OnCopy(p, cap, sn, at).0
    case Acked(sn, at) => OnAck(p, sn, at)
    case Measured(rtt) => p.(rtt := rtt)
  }
}
