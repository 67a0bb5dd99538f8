/** The send pacer as a function on values: the token bucket, the queue, and the two drivers
    that feed and empty it. */
module PaceModel {
  const MAX_PKT_BYTES: nat := 2048
  const SEQ_MIN_PAY: nat := 18
  const ADDR_BYTES: nat := 128

  type byte = n: int | 0 <= n < 256

  datatype Datagram = Datagram(sock: nat, to: seq<byte>, data: seq<byte>)
  datatype Entry = Entry(pkt: Datagram, due: nat)

  /** cap is the number of queue slots; rate 0 means measure only. */
  datatype Config = Config(rate: nat, burst: nat, maxDelay: nat, cap: nat)

  datatype Stats = Stats(paced: nat, exemptSmall: nat, overBudget: nat, queueFull: nat,
                         maxDelay: nat, peakQueue: nat)

  datatype Pace = Pace(tokens: int, lastFill: nat, q: seq<Entry>, stats: Stats)

  datatype Decision = SendNow | Queued | FlushThenSend

  const NO_STATS := Stats(0, 0, 0, 0, 0, 0)

  function Max(a: int, b: int): int { if a >= b then a else b }
  function Min(a: int, b: int): int { if a <= b then a else b }

  /** A twentieth of a second's traffic, but never less than one whole datagram. */
  function BurstFor(rate: nat): nat {
    Max(if rate == 0 then 0 else rate / 20, MAX_PKT_BYTES)
  }

  predicate ConfigOk(c: Config) {
    c.burst == BurstFor(c.rate) && c.cap >= 1
  }

  function Init(cfg: Config, now: nat): Pace {
    Pace(cfg.burst, now, [], NO_STATS)
  }

  /** The quotient a / n rounded down, by repeated subtraction. */
  function FloorDiv(a: nat, n: nat): nat
    requires n > 0
  {
    if a < n then 0 else 1 + FloorDiv(a - n, n)
  }

  lemma FloorDivIsQuotient(a: nat, n: nat)
    requires n > 0
    ensures FloorDiv(a, n) == a / n
  {
    FloorDivBounds(a, n);
    assert (a / n) * n <= a < (a / n) * n + n;
    QuotientUnique(a, n, FloorDiv(a, n), a / n);
    QuotientUnique(a, n, a / n, FloorDiv(a, n));
  }

  lemma QuotientUnique(a: nat, n: nat, p: nat, q: nat)
    requires n > 0 && p * n <= a && a < q * n + n
    ensures p <= q
  {
    assert (q + 1) * n == q * n + n;
    if p > q {
      MulMonotone(q + 1, p, n);
    }
  }

  lemma MulMonotone(a: nat, b: nat, n: nat)
    requires a <= b
    ensures a * n <= b * n
  {
    assert b * n == a * n + (b - a) * n;
  }

  lemma {:induction false} FloorDivBounds(a: nat, n: nat)
    requires n > 0
    ensures FloorDiv(a, n) * n <= a < FloorDiv(a, n) * n + n
  {
    if a < n {
    } else {
      FloorDivBounds(a - n, n);
      assert (1 + FloorDiv(a - n, n)) * n == n + FloorDiv(a - n, n) * n;
    }
  }

  /** Bytes earned in ms milliseconds. */
  function Earned(rate: nat, ms: nat): nat { FloorDiv(ms * rate, 1000) }

  /** Milliseconds, rounded down, until a shortfall of that many bytes is earned. */
  function WaitFor(rate: nat, shortfall: int): nat
    requires rate > 0
  {
    if shortfall > 0 then FloorDiv(shortfall * 1000, rate) else 0
  }

  function Refill(cfg: Config, s: Pace, now: nat): Pace {
    if now <= s.lastFill then s
    else s.(tokens := Min(s.tokens + Earned(cfg.rate, now - s.lastFill), cfg.burst), lastFill := now)
  }

  datatype Verdict = Verdict(s: Pace, d: Decision, due: nat)

  /** The verdict on a datagram of len bytes. */
  function Admit(cfg: Config, s: Pace, len: nat, now: nat): Verdict {
    if cfg.rate == 0 then Verdict(s, SendNow, now)
    else if len < SEQ_MIN_PAY then
      Verdict(s.(stats := s.stats.(exemptSmall := s.stats.exemptSmall + 1)), SendNow, now)
    else Spend(cfg, Refill(cfg, s, now), len, now)
  }

  /** The decision once the bucket is up to date. */
  function Spend(cfg: Config, s: Pace, len: nat, now: nat): Verdict
    requires cfg.rate > 0
  {
    var busy := s.q != [];
    var wait := WaitFor(cfg.rate, len - s.tokens);
    if !busy && s.tokens >= len then Verdict(s.(tokens := s.tokens - len), SendNow, now)
    else if wait > cfg.maxDelay || |s.q| >= cfg.cap then
      Verdict(s.(tokens := 0,
                 stats := if wait > cfg.maxDelay then s.stats.(overBudget := s.stats.overBudget + 1)
                          else s.stats.(queueFull := s.stats.queueFull + 1)),
              if busy then FlushThenSend else SendNow, now)
    else
      Verdict(s.(tokens := s.tokens - len,
                 stats := s.stats.(paced := s.stats.paced + 1, maxDelay := Max(s.stats.maxDelay, wait))),
              Queued, now + wait)
  }

  predicate Storable(cfg: Config, s: Pace, d: Datagram) {
    |s.q| < cfg.cap && |d.data| <= MAX_PKT_BYTES && 0 < |d.to| <= ADDR_BYTES
  }

  function Enqueue(s: Pace, d: Datagram, due: nat): Pace {
    s.(q := s.q + [Entry(d, due)],
       stats := s.stats.(peakQueue := Max(s.stats.peakQueue, |s.q| + 1)))
  }

  function Packets(q: seq<Entry>): (r: seq<Datagram>)
    ensures |r| == |q|
  {
    seq(|q|, i requires 0 <= i < |q| => q[i].pkt)
  }

  // ---- The drivers -------------------------------------------------------------

  /** The arguments the pacer is willing to look at; anything else is sent directly. */
  predicate Acceptable(d: Datagram) {
    0 < |d.data| <= MAX_PKT_BYTES && 0 < |d.to| <= ADDR_BYTES
  }

  /** The pacer, and everything handed to the real send so far, in order. */
  datatype World = World(s: Pace, wire: seq<Datagram>)

  function Send(cfg: Config, w: World, d: Datagram, now: nat): World {
    if !Acceptable(d) then w.(wire := w.wire + [d])
    else
      var v := Admit(cfg, w.s, |d.data|, now);
      if v.d == Queued && Storable(cfg, v.s, d) then World(Enqueue(v.s, d, v.due), w.wire)
      else if v.d == SendNow then World(v.s, w.wire + [d])
      else World(v.s.(q := []), w.wire + Packets(v.s.q) + [d])
  }

  /** How many entries at the head of the queue are due. */
  function DueFrom(q: seq<Entry>, now: nat, i: nat): (r: nat)
    requires i <= |q|
    ensures i <= r <= |q|
    ensures r < |q| ==> q[r].due > now
    decreases |q| - i
  {
    if i == |q| || q[i].due > now then i else DueFrom(q, now, i + 1)
  }

  /** The pacer thread waking up. */
  function Tick(w: World, now: nat): World {
    var n := DueFrom(w.s.q, now, 0);
    World(w.s.(q := w.s.q[n..]), w.wire + Packets(w.s.q[..n]))
  }

  datatype Event =
    | Sent(d: Datagram, at: nat)
    | Ticked(at: nat)

  function Step(cfg: Config, w: World, e: Event): World {
    match e
    case Sent(d, at) => Send(cfg, w, d, at)
    case Ticked(at) => Tick(w, at)
  }

  /** After the first n events. */
  function Run(cfg: Config, w: World, es: seq<Event>, n: nat): World
    requires n <= |es|
  {
    if n == 0 then w else Step(cfg, Run(cfg, w, es, n - 1), es[n - 1])
  }

  /** Events happen in the order of their clock readings, from t0 on. */
  predicate InOrder(es: seq<Event>, t0: nat) {
    && (forall i :: 0 <= i < |es| ==> t0 <= es[i].at)
    && (forall i, j :: 0 <= i < j < |es| ==> es[i].at <= es[j].at)
  }
}
