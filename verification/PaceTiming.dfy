/** Due times, bounded delay and bucket conformance: the floored arithmetic of the pacer. */
module PaceTiming {
  import opened PaceModel

  // ---- Floor arithmetic ----------------------------------------------------------

  /** A floored quotient is below any multiple the numerator is below. */
  lemma FloorBelow(a: nat, n: nat, k: nat)
    requires n > 0 && a < k * n
    ensures FloorDiv(a, n) < k
  {
    FloorDivBounds(a, n);
    if FloorDiv(a, n) >= k {
      MulMonotone(k, FloorDiv(a, n), n);
    }
  }

  lemma FloorMonotone(a: nat, b: nat, n: nat)
    requires n > 0 && a <= b
    ensures FloorDiv(a, n) <= FloorDiv(b, n)
  {
    FloorDivBounds(b, n);
    assert (FloorDiv(b, n) + 1) * n == FloorDiv(b, n) * n + n;
    FloorBelow(a, n, FloorDiv(b, n) + 1);
  }

  // ---- The horizon ---------------------------------------------------------------

  function Debt(s: Pace): nat { Max(0, -s.tokens) }

  /** When the debt the queue has run up will have been earned back. */
  function Horizon(cfg: Config, s: Pace): nat
    requires cfg.rate > 0
  {
    s.lastFill + FloorDiv(Debt(s) * 1000, cfg.rate)
  }

  /** Earning back part of a debt shortens the wait by no more than the time it took. */
  lemma DebtAges(rate: nat, debt: nat, ms: nat, left: nat)
    requires rate > 0
    requires left >= debt - Earned(rate, ms)
    ensures FloorDiv(debt * 1000, rate) <= ms + FloorDiv(left * 1000, rate)
  {
    FloorDivBounds(ms * rate, 1000);
    assert Earned(rate, ms) * 1000 <= ms * rate;
    var q := FloorDiv(left * 1000, rate);
    FloorDivBounds(left * 1000, rate);
    assert (q * rate + rate) + ms * rate == (q + 1 + ms) * rate;
    FloorBelow(debt * 1000, rate, q + 1 + ms);
  }

  lemma RefillExtendsHorizon(cfg: Config, s: Pace, now: nat)
    requires cfg.rate > 0
    ensures Horizon(cfg, Refill(cfg, s, now)) >= Horizon(cfg, s)
  {
    if now > s.lastFill {
      DebtAges(cfg.rate, Debt(s), now - s.lastFill, Debt(Refill(cfg, s, now)));
    }
  }

  // ---- The invariant ---------------------------------------------------------------

  ghost predicate Sorted(q: seq<Entry>) {
    forall i, j :: 0 <= i < j < |q| ==> q[i].due <= q[j].due
  }

  ghost predicate PaceInv(cfg: Config, s: Pace, now: nat) {
    && s.lastFill <= now
    && s.tokens <= cfg.burst
    && |s.q| <= cfg.cap
    && (cfg.rate == 0 ==> s.q == [])
    && (cfg.rate > 0 ==>
          && 1000 * s.tokens > -(cfg.rate * (cfg.maxDelay + 1))
          && Sorted(s.q)
          && forall i :: 0 <= i < |s.q| ==> s.q[i].due <= Horizon(cfg, s))
  }

  lemma InitInv(cfg: Config, now: nat)
    requires ConfigOk(cfg)
    ensures PaceInv(cfg, Init(cfg, now), now)
  {
    assert cfg.rate * (cfg.maxDelay + 1) >= 0;
  }

  lemma RefillKeeps(cfg: Config, s: Pace, t: nat, now: nat)
    requires PaceInv(cfg, s, t) && t <= now && cfg.rate > 0
    ensures PaceInv(cfg, Refill(cfg, s, now), now) && Refill(cfg, s, now).lastFill == now
  {
    RefillExtendsHorizon(cfg, s, now);
  }

  /** A wait within the limit means the shortfall is within what the limit can earn. */
  lemma WaitBoundsDebt(rate: nat, shortfall: nat, limit: nat)
    requires rate > 0 && FloorDiv(shortfall * 1000, rate) <= limit
    ensures 1000 * shortfall < rate * (limit + 1)
  {
    var q := FloorDiv(shortfall * 1000, rate);
    FloorDivBounds(shortfall * 1000, rate);
    MulMonotone(q + 1, limit + 1, rate);
    assert (q + 1) * rate == q * rate + rate;
  }

  /** What one decision does to the timing invariant.  Queueing keeps it with the new entry last;
      passing keeps it once the queue is flushed. */
  lemma AdmitKeeps(cfg: Config, s: Pace, len: nat, t: nat, now: nat)
    requires ConfigOk(cfg) && PaceInv(cfg, s, t) && t <= now
    ensures var v := Admit(cfg, s, len, now);
            && v.s.q == s.q
            && (v.d == Queued ==>
                  && cfg.rate > 0 && |s.q| < cfg.cap
                  && now <= v.due <= now + cfg.maxDelay
                  && forall d :: PaceInv(cfg, Enqueue(v.s, d, v.due), now))
            && (v.d == FlushThenSend ==> PaceInv(cfg, v.s.(q := []), now))
            && (v.d == SendNow ==> PaceInv(cfg, v.s, now) && (s.q == [] || len < SEQ_MIN_PAY))
  {
    if cfg.rate > 0 && len >= SEQ_MIN_PAY {
      RefillKeeps(cfg, s, t, now);
      SpendKeeps(cfg, Refill(cfg, s, now), len, now);
    }
  }

  lemma SpendKeeps(cfg: Config, s: Pace, len: nat, now: nat)
    requires ConfigOk(cfg) && cfg.rate > 0 && PaceInv(cfg, s, now) && s.lastFill == now
    ensures var v := Spend(cfg, s, len, now);
            && v.s.q == s.q
            && (v.d == Queued ==>
                  && |s.q| < cfg.cap
                  && now <= v.due <= now + cfg.maxDelay
                  && forall d :: PaceInv(cfg, Enqueue(v.s, d, v.due), now))
            && (v.d == FlushThenSend ==> PaceInv(cfg, v.s.(q := []), now))
            && (v.d == SendNow ==> PaceInv(cfg, v.s, now) && s.q == [])
  {
    var v := Spend(cfg, s, len, now);
    if v.d == Queued {
      QueuedHorizon(cfg, s, len, now);
      forall d ensures PaceInv(cfg, Enqueue(v.s, d, v.due), now) {
        EnqueueKeeps(cfg, s, v.s, d, v.due, now);
      }
    } else {
      assert cfg.rate * (cfg.maxDelay + 1) > 0;
    }
  }

  /** A queued packet is due exactly at the horizon its own debt extends. */
  lemma QueuedHorizon(cfg: Config, s: Pace, len: nat, now: nat)
    requires cfg.rate > 0 && s.lastFill == now && Spend(cfg, s, len, now).d == Queued
    ensures var v := Spend(cfg, s, len, now);
            && v.due == Horizon(cfg, v.s) >= Horizon(cfg, s)
            && 1000 * v.s.tokens > -(cfg.rate * (cfg.maxDelay + 1))
  {
    var short: nat := Max(0, len - s.tokens);
    assert WaitFor(cfg.rate, len - s.tokens) == FloorDiv(short * 1000, cfg.rate);
    WaitBoundsDebt(cfg.rate, short, cfg.maxDelay);
    FloorMonotone(Debt(s) * 1000, short * 1000, cfg.rate);
  }

  lemma EnqueueKeeps(cfg: Config, s: Pace, v: Pace, d: Datagram, due: nat, now: nat)
    requires cfg.rate > 0 && PaceInv(cfg, s, now) && |s.q| < cfg.cap
    requires v.q == s.q && v.lastFill <= now && v.tokens <= cfg.burst
    requires due == Horizon(cfg, v) >= Horizon(cfg, s)
    requires 1000 * v.tokens > -(cfg.rate * (cfg.maxDelay + 1))
    ensures PaceInv(cfg, Enqueue(v, d, due), now)
  {
    AppendSorted(s.q, Entry(d, due));
  }

  lemma AppendSorted(q: seq<Entry>, e: Entry)
    requires Sorted(q) && forall i :: 0 <= i < |q| ==> q[i].due <= e.due
    ensures Sorted(q + [e])
    ensures forall i :: 0 <= i <= |q| ==> (q + [e])[i].due <= e.due
  {
  }

  lemma StepKeeps(cfg: Config, w: World, e: Event, t: nat)
    requires ConfigOk(cfg) && PaceInv(cfg, w.s, t) && t <= e.at
    ensures PaceInv(cfg, Step(cfg, w, e).s, e.at)
  {
    match e
    case Sent(d, at) =>
      if Acceptable(d) {
        AdmitKeeps(cfg, w.s, |d.data|, t, at);
      }
    case Ticked(at) =>
      DropKeeps(cfg, w.s, DueFrom(w.s.q, at, 0), t, at);
  }

  lemma DropKeeps(cfg: Config, s: Pace, n: nat, t: nat, now: nat)
    requires PaceInv(cfg, s, t) && t <= now && n <= |s.q|
    ensures PaceInv(cfg, s.(q := s.q[n..]), now)
  {
    assert forall i :: 0 <= i < |s.q[n..]| ==> s.q[n..][i] == s.q[n + i];
  }

  function Clock(es: seq<Event>, t0: nat, n: nat): nat
    requires n <= |es|
  {
    if n == 0 then t0 else es[n - 1].at
  }

  /** Every reachable state keeps the timing invariant. */
  lemma {:induction false} RunKeeps(cfg: Config, t0: nat, es: seq<Event>, n: nat)
    requires ConfigOk(cfg) && InOrder(es, t0) && n <= |es|
    ensures PaceInv(cfg, Run(cfg, World(Init(cfg, t0), []), es, n).s, Clock(es, t0, n))
  {
    if n == 0 {
      InitInv(cfg, t0);
    } else {
      RunKeeps(cfg, t0, es, n - 1);
      StepKeeps(cfg, Run(cfg, World(Init(cfg, t0), []), es, n - 1), es[n - 1], Clock(es, t0, n - 1));
    }
  }

  // ---- The pop loop releases exactly what is due ------------------------------------

  lemma {:induction false} DueIsPrefix(q: seq<Entry>, now: nat, i: nat)
    requires Sorted(q) && i <= |q|
    ensures forall j :: i <= j < |q| ==> (j < DueFrom(q, now, i) <==> q[j].due <= now)
    decreases |q| - i
  {
    if i == |q| || q[i].due > now {
    } else {
      DueIsPrefix(q, now, i + 1);
    }
  }

  /** In every reachable state the queue is in due order, so a wake-up at time t sends exactly the
      entries that are due and leaves exactly those that are not. */
  lemma TickSendsExactlyDue(cfg: Config, t0: nat, es: seq<Event>, n: nat, t: nat)
    requires ConfigOk(cfg) && InOrder(es, t0) && n <= |es|
    ensures var w := Run(cfg, World(Init(cfg, t0), []), es, n);
            var k := DueFrom(w.s.q, t, 0);
            && Tick(w, t).wire == w.wire + Packets(w.s.q[..k])
            && Tick(w, t).s.q == w.s.q[k..]
            && forall j :: 0 <= j < |w.s.q| ==> (j < k <==> w.s.q[j].due <= t)
  {
    RunKeeps(cfg, t0, es, n);
    var w := Run(cfg, World(Init(cfg, t0), []), es, n);
    if cfg.rate > 0 {
      DueIsPrefix(w.s.q, t, 0);
    }
  }
}
