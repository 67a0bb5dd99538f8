/** When the pacer lets a datagram go: no earlier than the bucket allows and no later than it must, over whole
    runs and without naming the bucket's level. */
module PaceSchedule {
  import opened PaceModel
  import opened PaceTiming
  import opened PaceRuns

  // ---- What a run has sent ---------------------------------------------------------------------

  predicate IsShaped(e: Event) { e.Sent? && Selects(Shaped, e.d) }

  /** How many shaped datagrams the first n events offer. */
  function Offers(es: seq<Event>, n: nat): nat
    requires n <= |es|
  {
    if n == 0 then 0 else Offers(es, n - 1) + (if IsShaped(es[n - 1]) then 1 else 0)
  }

  /** Event i goes past the bucket, over budget or for want of a queue slot. */
  ghost predicate PassAt(cfg: Config, t0: nat, es: seq<Event>, i: nat)
    requires i < |es|
  {
    Passes(RunFrom(cfg, t0, es, i + 1)) > Passes(RunFrom(cfg, t0, es, i))
  }

  /** Events m up to n offer more than fund and the rate supply from one instant to another; each datagram may
      lose a byte to rounding. */
  ghost predicate Exceeds(cfg: Config, es: seq<Event>, m: nat, n: nat, fund: nat, from: nat, until: nat)
    requires m <= n <= |es|
  {
    1000 * (Admitted(es, n) - Admitted(es, m)) + 1000 * (Offers(es, n) - Offers(es, m))
    > 1000 * fund + cfg.rate * (until - from)
  }

  /** An interval that began with a full bucket, or with the empty one a pass leaves. */
  ghost predicate Begins(cfg: Config, t0: nat, es: seq<Event>, m: nat, fund: nat, from: nat)
    requires m <= |es|
  {
    || (fund == cfg.burst && m == 0 && from == t0)
    || (fund == cfg.burst && m < |es| && from == es[m].at)
    || (fund == 0 && m > 0 && from == es[m - 1].at && PassAt(cfg, t0, es, m - 1))
  }

  /** The datagrams offered up to and with event n have used up what some interval that ends then supplies. */
  ghost predicate Exhausted(cfg: Config, t0: nat, es: seq<Event>, n: nat, until: nat)
    requires n < |es|
  {
    exists m, fund, from ::
      0 <= m <= n && Begins(cfg, t0, es, m, fund, from) && Exceeds(cfg, es, m, n + 1, fund, from, until)
  }

  // ---- The bucket from below ---------------------------------------------------------------------

  /** The bucket holds at least what the interval supplied less what was offered in it. */
  ghost predicate Owes(cfg: Config, s: Pace, bytes: int, offers: int, fund: nat, from: nat) {
    1000 * (s.tokens + bytes + offers) >= 1000 * fund + cfg.rate * (s.lastFill - from)
  }

  /** A refill that does not fill the bucket loses less than a byte to rounding. */
  lemma RefillOwes(cfg: Config, s: Pace, now: nat, bytes: int, offers: int, fund: nat, from: nat)
    requires Owes(cfg, s, bytes, offers, fund, from) && s.lastFill <= now
    requires Refill(cfg, s, now).tokens < cfg.burst
    ensures 1000 * (Refill(cfg, s, now).tokens + bytes + offers + 1) > 1000 * fund + cfg.rate * (now - from)
  {
    if now > s.lastFill {
      var ms := now - s.lastFill;
      FloorDivBounds(ms * cfg.rate, 1000);
      assert cfg.rate * (now - from) == cfg.rate * (s.lastFill - from) + ms * cfg.rate;
    }
  }

  ghost predicate OwesAt(cfg: Config, t0: nat, es: seq<Event>, n: nat, m: nat, fund: nat, from: nat)
    requires n <= |es|
  {
    && m <= n && Begins(cfg, t0, es, m, fund, from)
    && Owes(cfg, RunFrom(cfg, t0, es, n).s, Admitted(es, n) - Admitted(es, m), Offers(es, n) - Offers(es, m), fund,
            from)
  }

  /** The same once event n's refill is done, with a byte to spare for its rounding. */
  ghost predicate Filled(cfg: Config, t0: nat, es: seq<Event>, n: nat, m: nat, fund: nat, from: nat)
    requires n < |es|
  {
    && m <= n && Begins(cfg, t0, es, m, fund, from)
    && 1000 * (Refill(cfg, RunFrom(cfg, t0, es, n).s, es[n].at).tokens + Admitted(es, n) - Admitted(es, m)
               + Offers(es, n) - Offers(es, m) + 1)
       > 1000 * fund + cfg.rate * (es[n].at - from)
  }

  lemma OwesFills(cfg: Config, t0: nat, es: seq<Event>, n: nat, m: nat, fund: nat, from: nat)
    requires n < |es| && OwesAt(cfg, t0, es, n, m, fund, from) && RunFrom(cfg, t0, es, n).s.lastFill <= es[n].at
    requires RunFrom(cfg, t0, es, n).s.tokens <= cfg.burst
    ensures Filled(cfg, t0, es, n, m, fund, from) || Filled(cfg, t0, es, n, n, cfg.burst, es[n].at)
  {
    var s := RunFrom(cfg, t0, es, n).s;
    if Refill(cfg, s, es[n].at).tokens < cfg.burst {
      RefillOwes(cfg, s, es[n].at, Admitted(es, n) - Admitted(es, m), Offers(es, n) - Offers(es, m), fund, from);
    } else {
      assert cfg.rate * (es[n].at - es[n].at) == 0;
    }
  }

  /** What a wait, rounded down, says of the shortfall that causes it. */
  lemma WaitIsShortfall(rate: nat, shortfall: int, limit: nat)
    requires rate > 0
    ensures shortfall > 0 ==> rate * WaitFor(rate, shortfall) <= 1000 * shortfall
    ensures WaitFor(rate, shortfall) > limit ==> rate * (limit + 1) <= 1000 * shortfall
  {
    if shortfall > 0 {
      FloorDivBounds(shortfall * 1000, rate);
      var q := WaitFor(rate, shortfall);
      assert q * rate == rate * q;
      if q > limit {
        MulMonotone(limit + 1, q, rate);
      }
    }
  }

  /** Short of its bytes by what a wait earns, a datagram ends an interval that offered more than was supplied. */
  lemma ShortIsExhausted(cfg: Config, t0: nat, es: seq<Event>, n: nat, m: nat, fund: nat, from: nat, wait: nat)
    requires n < |es| && IsShaped(es[n]) && Filled(cfg, t0, es, n, m, fund, from)
    requires 1000 * (|es[n].d.data| - Refill(cfg, RunFrom(cfg, t0, es, n).s, es[n].at).tokens) >= cfg.rate * wait
    ensures Exhausted(cfg, t0, es, n, es[n].at + wait)
  {
    assert cfg.rate * (es[n].at + wait - from) == cfg.rate * (es[n].at - from) + cfg.rate * wait;
    assert Exceeds(cfg, es, m, n + 1, fund, from, es[n].at + wait);
  }

  lemma StepOwes(cfg: Config, t0: nat, es: seq<Event>, n: nat, m: nat, fund: nat, from: nat)
    requires ConfigOk(cfg) && cfg.rate > 0 && n < |es| && RunFrom(cfg, t0, es, n).s.lastFill <= es[n].at
    requires IsShaped(es[n]) && Filled(cfg, t0, es, n, m, fund, from)
    ensures OwesAt(cfg, t0, es, n + 1, m, fund, from) || OwesAt(cfg, t0, es, n + 1, n + 1, 0, es[n].at)
  {
    var w := RunFrom(cfg, t0, es, n);
    var u := RunFrom(cfg, t0, es, n + 1);
    assert u == Step(cfg, w, es[n]);
    assert u.s.lastFill == es[n].at;
    if Passes(u) > Passes(w) {
      assert PassAt(cfg, t0, es, n);
      assert cfg.rate * (es[n].at - es[n].at) == 0;
    }
  }

  ghost predicate Owing(cfg: Config, t0: nat, es: seq<Event>, n: nat)
    requires n <= |es|
  {
    exists m, fund, from :: OwesAt(cfg, t0, es, n, m, fund, from)
  }

  lemma StartOwes(cfg: Config, t0: nat, es: seq<Event>)
    ensures Owing(cfg, t0, es, 0)
  {
    assert cfg.rate * (t0 - t0) == 0;
    assert OwesAt(cfg, t0, es, 0, 0, cfg.burst, t0);
  }

  lemma ShapedOwes(cfg: Config, t0: nat, es: seq<Event>, n: nat)
    requires ConfigOk(cfg) && cfg.rate > 0 && InOrder(es, t0) && n < |es| && IsShaped(es[n]) && Owing(cfg, t0, es, n)
    ensures Owing(cfg, t0, es, n + 1)
  {
    RunKeeps(cfg, t0, es, n);
    ClockIsPast(es, t0, n);
    var m, fund, from :| OwesAt(cfg, t0, es, n, m, fund, from);
    OwesFills(cfg, t0, es, n, m, fund, from);
    if Filled(cfg, t0, es, n, m, fund, from) {
      StepOwes(cfg, t0, es, n, m, fund, from);
    } else {
      StepOwes(cfg, t0, es, n, n, cfg.burst, es[n].at);
    }
  }

  lemma OtherOwes(cfg: Config, t0: nat, es: seq<Event>, n: nat)
    requires n < |es| && !IsShaped(es[n]) && Owing(cfg, t0, es, n)
    ensures Owing(cfg, t0, es, n + 1)
  {
    var m, fund, from :| OwesAt(cfg, t0, es, n, m, fund, from);
    UnshapedKeeps(cfg, RunFrom(cfg, t0, es, n), es[n]);
    assert OwesAt(cfg, t0, es, n + 1, m, fund, from);
  }

  lemma {:induction false} RunOwes(cfg: Config, t0: nat, es: seq<Event>, n: nat)
    requires ConfigOk(cfg) && cfg.rate > 0 && InOrder(es, t0) && n <= |es|
    ensures Owing(cfg, t0, es, n)
  {
    if n == 0 {
      StartOwes(cfg, t0, es);
    } else {
      RunOwes(cfg, t0, es, n - 1);
      if IsShaped(es[n - 1]) {
        ShapedOwes(cfg, t0, es, n - 1);
      } else {
        OtherOwes(cfg, t0, es, n - 1);
      }
    }
  }

  lemma ClockIsPast(es: seq<Event>, t0: nat, n: nat)
    requires InOrder(es, t0) && n < |es|
    ensures Clock(es, t0, n) <= es[n].at
  {
  }

  lemma UnshapedKeeps(cfg: Config, w: World, e: Event)
    requires !IsShaped(e)
    ensures Step(cfg, w, e).s.tokens == w.s.tokens && Step(cfg, w, e).s.lastFill == w.s.lastFill
  {
  }

  // ---- No later than it must ------------------------------------------------------------------------

  /** What became of the shaped datagram that event n offered. */
  datatype Fate = AtOnce | Due(due: nat) | Past

  ghost function FateOf(cfg: Config, t0: nat, es: seq<Event>, n: nat): Fate
    requires n < |es|
  {
    var w, u := RunFrom(cfg, t0, es, n), RunFrom(cfg, t0, es, n + 1);
    if Passes(u) > Passes(w) then Past
    else if |u.s.q| > |w.s.q| then Due(u.s.q[|w.s.q|].due) else AtOnce
  }

  /** In every run a shaped datagram is made to wait only behind others, or until some interval's offers have
      used up its bucket and all it earned; it goes past the bucket as one too many only when the queue is full,
      and as over budget only when they would not be covered within the longest delay either. */
  lemma {:induction false} WaitsOnlyWhenExhausted(cfg: Config, t0: nat, es: seq<Event>, n: nat)
    requires ConfigOk(cfg) && cfg.rate > 0 && InOrder(es, t0) && n < |es| && IsShaped(es[n])
    ensures var w, u, f, now := RunFrom(cfg, t0, es, n), RunFrom(cfg, t0, es, n + 1), FateOf(cfg, t0, es, n), es[n].at;
            && (f.AtOnce? ==> w.s.q == [] == u.s.q && u.wire == w.wire + [es[n].d])
            && (f.Due? ==> now <= f.due && u.s.q == w.s.q + [Entry(es[n].d, f.due)] && u.wire == w.wire)
            && (f.Due? && (f.due > now || w.s.q == []) ==> Exhausted(cfg, t0, es, n, f.due))
            && (f.Past? ==> u.s.q == [] && u.wire == w.wire + Packets(w.s.q) + [es[n].d])
            && (f.Past? ==>
                  (u.s.stats.overBudget > w.s.stats.overBudget) != (u.s.stats.queueFull > w.s.stats.queueFull))
            && (u.s.stats.overBudget > w.s.stats.overBudget ==> Exhausted(cfg, t0, es, n, now + cfg.maxDelay + 1))
            && (u.s.stats.queueFull > w.s.stats.queueFull ==> |w.s.q| == cfg.cap)
  {
    var w, now := RunFrom(cfg, t0, es, n), es[n].at;
    RunOwes(cfg, t0, es, n);
    RunKeeps(cfg, t0, es, n);
    ClockIsPast(es, t0, n);
    var m, fund, from :| OwesAt(cfg, t0, es, n, m, fund, from);
    OwesFills(cfg, t0, es, n, m, fund, from);
    if Filled(cfg, t0, es, n, m, fund, from) {
      FilledFate(cfg, t0, es, n, m, fund, from);
    } else {
      FilledFate(cfg, t0, es, n, n, cfg.burst, now);
    }
  }

  lemma FilledFate(cfg: Config, t0: nat, es: seq<Event>, n: nat, m: nat, fund: nat, from: nat)
    requires ConfigOk(cfg) && cfg.rate > 0 && n < |es| && IsShaped(es[n]) && Filled(cfg, t0, es, n, m, fund, from)
    requires |RunFrom(cfg, t0, es, n).s.q| <= cfg.cap
    ensures var w, u, f, now := RunFrom(cfg, t0, es, n), RunFrom(cfg, t0, es, n + 1), FateOf(cfg, t0, es, n), es[n].at;
            && (f.AtOnce? ==> w.s.q == [] == u.s.q && u.wire == w.wire + [es[n].d])
            && (f.Due? ==> now <= f.due && u.s.q == w.s.q + [Entry(es[n].d, f.due)] && u.wire == w.wire)
            && (f.Due? && (f.due > now || w.s.q == []) ==> Exhausted(cfg, t0, es, n, f.due))
            && (f.Past? ==> u.s.q == [] && u.wire == w.wire + Packets(w.s.q) + [es[n].d])
            && (f.Past? ==>
                  (u.s.stats.overBudget > w.s.stats.overBudget) != (u.s.stats.queueFull > w.s.stats.queueFull))
            && (u.s.stats.overBudget > w.s.stats.overBudget ==> Exhausted(cfg, t0, es, n, now + cfg.maxDelay + 1))
            && (u.s.stats.queueFull > w.s.stats.queueFull ==> |w.s.q| == cfg.cap)
  {
    var w, u, now := RunFrom(cfg, t0, es, n), RunFrom(cfg, t0, es, n + 1), es[n].at;
    assert u == Send(cfg, w, es[n].d, now);
    EnqueueCases(cfg, w.s, es[n].d, now);
    var short := |es[n].d.data| - Refill(cfg, w.s, now).tokens;
    WaitIsShortfall(cfg.rate, short, cfg.maxDelay);
    if short > 0 {
      ShortIsExhausted(cfg, t0, es, n, m, fund, from, WaitFor(cfg.rate, short));
      if WaitFor(cfg.rate, short) > cfg.maxDelay {
        ShortIsExhausted(cfg, t0, es, n, m, fund, from, cfg.maxDelay + 1);
      }
    }
  }

  /** Offered to an empty queue, a datagram goes at once unless some interval up to that instant offered more
      bytes than its bucket and the rate supplied. */
  lemma {:induction false} EmptyQueueGoesAtOnce(cfg: Config, t0: nat, es: seq<Event>, n: nat)
    requires ConfigOk(cfg) && cfg.rate > 0 && InOrder(es, t0) && n < |es| && IsShaped(es[n])
    requires RunFrom(cfg, t0, es, n).s.q == [] && !Exhausted(cfg, t0, es, n, es[n].at)
    ensures FateOf(cfg, t0, es, n).AtOnce?
    ensures RunFrom(cfg, t0, es, n + 1).wire == RunFrom(cfg, t0, es, n).wire + [es[n].d]
  {
    WaitsOnlyWhenExhausted(cfg, t0, es, n);
    RoomInEmpty(cfg, t0, es, n);
    var f := FateOf(cfg, t0, es, n);
    if f.Due? {
      LaterIsHarder(cfg, t0, es, n, es[n].at, f.due);
    } else if f.Past? {
      LaterIsHarder(cfg, t0, es, n, es[n].at, es[n].at + cfg.maxDelay + 1);
    }
  }

  lemma RoomInEmpty(cfg: Config, t0: nat, es: seq<Event>, n: nat)
    requires ConfigOk(cfg) && n < |es| && RunFrom(cfg, t0, es, n).s.q == []
    ensures |RunFrom(cfg, t0, es, n).s.q| < cfg.cap
  {
  }

  lemma LaterIsHarder(cfg: Config, t0: nat, es: seq<Event>, n: nat, until: nat, later: nat)
    requires n < |es| && until <= later && Exhausted(cfg, t0, es, n, later)
    ensures Exhausted(cfg, t0, es, n, until)
  {
    var m, fund, from :|
      0 <= m <= n && Begins(cfg, t0, es, m, fund, from) && Exceeds(cfg, es, m, n + 1, fund, from, later);
    ExceedsEarlier(cfg, es, m, n + 1, fund, from, until, later);
  }

  lemma ExceedsEarlier(cfg: Config, es: seq<Event>, m: nat, n: nat, fund: nat, from: nat, until: nat, later: nat)
    requires m <= n <= |es| && until <= later && Exceeds(cfg, es, m, n, fund, from, later)
    ensures Exceeds(cfg, es, m, n, fund, from, until)
  {
    Longer(cfg.rate, until - from, later - from);
  }

  lemma Longer(rate: nat, a: int, b: int)
    requires a <= b
    ensures rate * a <= rate * b
  {
    assert rate * b == rate * a + rate * (b - a);
  }

  /** The bucket holds a twentieth of a second's traffic, rounded down, but always one whole datagram. */
  lemma BurstIsTwentieth(rate: nat)
    ensures BurstFor(rate) >= MAX_PKT_BYTES
    ensures BurstFor(rate) > MAX_PKT_BYTES ==> 20 * BurstFor(rate) <= rate < 20 * BurstFor(rate) + 20
    ensures BurstFor(rate) > MAX_PKT_BYTES <==> rate >= 20 * (MAX_PKT_BYTES + 1)
  {
  }

  // ---- After idle time -----------------------------------------------------------------------------------

  /** No shaped datagram among the first n events came after t. */
  ghost predicate QuietSince(es: seq<Event>, n: nat, t: int)
    requires n <= |es|
  {
    forall i :: 0 <= i < n && IsShaped(es[i]) ==> es[i].at <= t
  }

  /** Untouched since t, or never since it was full at the start. */
  ghost predicate Aged(cfg: Config, s: Pace, t0: nat, t: int) {
    s.lastFill <= t || (s.lastFill == t0 && s.tokens == cfg.burst)
  }

  lemma StepAges(cfg: Config, w: World, e: Event, t0: nat, t: int)
    requires Aged(cfg, w.s, t0, t) && w.s.lastFill <= e.at && (IsShaped(e) ==> e.at <= t)
    ensures Aged(cfg, Step(cfg, w, e).s, t0, t)
  {
    if !IsShaped(e) {
      UnshapedKeeps(cfg, w, e);
    }
  }

  lemma {:induction false} BucketAges(cfg: Config, t0: nat, es: seq<Event>, n: nat, t: int)
    requires ConfigOk(cfg) && cfg.rate > 0 && InOrder(es, t0) && n <= |es| && QuietSince(es, n, t)
    ensures Aged(cfg, RunFrom(cfg, t0, es, n).s, t0, t)
  {
    if n == 0 {
    } else {
      BucketAges(cfg, t0, es, n - 1, t);
      RunKeeps(cfg, t0, es, n - 1);
      ClockIsPast(es, t0, n - 1);
      StepAges(cfg, RunFrom(cfg, t0, es, n - 1), es[n - 1], t0, t);
    }
  }

  /** After a pause in which the rate supplies the bucket and the longest delay, the bucket is full. */
  lemma PauseFills(cfg: Config, s: Pace, now: nat, pause: nat)
    requires cfg.rate > 0 && 1000 * s.tokens > -(cfg.rate * (cfg.maxDelay + 1)) && s.tokens <= cfg.burst
    requires s.lastFill + pause <= now && pause > 0
    requires cfg.rate * pause >= 1000 * cfg.burst + cfg.rate * (cfg.maxDelay + 1)
    ensures Refill(cfg, s, now).tokens == cfg.burst
  {
    var ms := now - s.lastFill;
    MulMonotone(pause, ms, cfg.rate);
    FloorDivBounds(ms * cfg.rate, 1000);
  }

  /** When no shaped datagram was offered for as long as the rate takes to supply the bucket and the longest
      delay, and nothing is queued, the next one goes at once, whatever happened before. */
  lemma {:induction false} IdleGoesAtOnce(cfg: Config, t0: nat, es: seq<Event>, n: nat, pause: nat)
    requires ConfigOk(cfg) && cfg.rate > 0 && InOrder(es, t0) && n < |es| && IsShaped(es[n])
    requires QuietSince(es, n, es[n].at - pause) && RunFrom(cfg, t0, es, n).s.q == []
    requires cfg.rate * pause >= 1000 * cfg.burst + cfg.rate * (cfg.maxDelay + 1)
    ensures RunFrom(cfg, t0, es, n + 1).wire == RunFrom(cfg, t0, es, n).wire + [es[n].d]
    ensures RunFrom(cfg, t0, es, n + 1).s.q == [] && FateOf(cfg, t0, es, n).AtOnce?
  {
    var w := RunFrom(cfg, t0, es, n);
    RunKeeps(cfg, t0, es, n);
    ClockIsPast(es, t0, n);
    BucketAges(cfg, t0, es, n, es[n].at - pause);
    assert pause > 0;
    if w.s.lastFill <= es[n].at - pause {
      PauseFills(cfg, w.s, es[n].at, pause);
    }
    assert RunFrom(cfg, t0, es, n + 1) == Send(cfg, w, es[n].d, es[n].at);
  }

  // ---- No earlier than it may ----------------------------------------------------------------------------

  /** The instant at which event n's datagram may leave. */
  ghost function LeavesAt(cfg: Config, t0: nat, es: seq<Event>, n: nat): nat
    requires n < |es|
  {
    var f := FateOf(cfg, t0, es, n);
    if f.Due? then f.due else es[n].at
  }

  /** Seen from an instant at which the bucket could at best have been full, what it holds. */
  ghost predicate Covered(cfg: Config, s: Pace, bytes: int, from: nat) {
    1000 * (s.tokens + bytes) <= 1000 * cfg.burst + cfg.rate * (s.lastFill - from)
  }

  lemma RefillCovered(cfg: Config, s: Pace, now: nat, bytes: int, from: nat)
    requires Covered(cfg, s, bytes, from) && s.lastFill <= now
    ensures 1000 * (Refill(cfg, s, now).tokens + bytes) <= 1000 * cfg.burst + cfg.rate * (now - from)
  {
    if now > s.lastFill {
      var ms := now - s.lastFill;
      FloorDivBounds(ms * cfg.rate, 1000);
      assert cfg.rate * (now - from) == cfg.rate * (s.lastFill - from) + ms * cfg.rate;
    }
  }

  /** A wait, rounded down, earns back all but the last millisecond's worth of the shortfall. */
  lemma WaitCovers(cfg: Config, s: Pace, len: nat, now: nat, at: nat)
    requires cfg.rate > 0 && s.lastFill == now && s.tokens <= cfg.burst
    requires var v := Spend(cfg, s, len, now); at == if v.d == Queued then v.due else now
    ensures var v := Spend(cfg, s, len, now);
            Covered(cfg, v.s, 0, at) && 1000 * v.s.tokens + cfg.rate * (at - now) + cfg.rate > 0
  {
    var short := len - s.tokens;
    assert cfg.rate * (now - now) == 0;
    if short > 0 {
      FloorDivBounds(short * 1000, cfg.rate);
      var wait := WaitFor(cfg.rate, short);
      assert wait * cfg.rate == cfg.rate * wait && cfg.rate * (now - (now + wait)) == -(cfg.rate * wait);
    }
  }

  lemma LeavesBySpend(cfg: Config, t0: nat, es: seq<Event>, n: nat)
    requires ConfigOk(cfg) && cfg.rate > 0 && n < |es| && IsShaped(es[n])
    ensures var s, d, now := RunFrom(cfg, t0, es, n).s, es[n].d, es[n].at;
            var v, u := Spend(cfg, Refill(cfg, s, now), |d.data|, now), RunFrom(cfg, t0, es, n + 1).s;
            && u.tokens == v.s.tokens && u.lastFill == v.s.lastFill
            && LeavesAt(cfg, t0, es, n) == if v.d == Queued then v.due else now
  {
    var w := RunFrom(cfg, t0, es, n);
    assert RunFrom(cfg, t0, es, n + 1) == Send(cfg, w, es[n].d, es[n].at);
    EnqueueCases(cfg, w.s, es[n].d, es[n].at);
  }

  /** At the instant a datagram may leave, the bucket is all but earned back, and at best full. */
  lemma LeavesOnTime(cfg: Config, t0: nat, es: seq<Event>, n: nat)
    requires ConfigOk(cfg) && cfg.rate > 0 && InOrder(es, t0) && n < |es| && IsShaped(es[n])
    ensures var s, at := RunFrom(cfg, t0, es, n + 1).s, LeavesAt(cfg, t0, es, n);
            && s.lastFill == es[n].at && Covered(cfg, s, 0, at)
            && 1000 * s.tokens + cfg.rate * (at - es[n].at) + cfg.rate > 0
  {
    var s, now := RunFrom(cfg, t0, es, n).s, es[n].at;
    RunKeeps(cfg, t0, es, n);
    ClockIsPast(es, t0, n);
    LeavesBySpend(cfg, t0, es, n);
    WaitCovers(cfg, Refill(cfg, s, now), |es[n].d.data|, now, LeavesAt(cfg, t0, es, n));
  }

  /** Nothing after event i up to event n goes past the bucket. */
  ghost predicate NoPass(cfg: Config, t0: nat, es: seq<Event>, i: nat, n: nat)
    requires n <= |es|
  {
    forall k :: i < k < n ==> !PassAt(cfg, t0, es, k)
  }

  lemma {:induction false} CoveredOver(cfg: Config, t0: nat, es: seq<Event>, i: nat, n: nat)
    requires ConfigOk(cfg) && cfg.rate > 0 && InOrder(es, t0) && i < n <= |es| && IsShaped(es[i])
    requires NoPass(cfg, t0, es, i, n)
    ensures Covered(cfg, RunFrom(cfg, t0, es, n).s, Admitted(es, n) - Admitted(es, i + 1), LeavesAt(cfg, t0, es, i))
    decreases n
  {
    if n == i + 1 {
      LeavesOnTime(cfg, t0, es, i);
    } else {
      CoveredOver(cfg, t0, es, i, n - 1);
      CoveredStep(cfg, t0, es, n - 1, Admitted(es, n - 1) - Admitted(es, i + 1), LeavesAt(cfg, t0, es, i));
    }
  }

  lemma CoveredStep(cfg: Config, t0: nat, es: seq<Event>, n: nat, bytes: int, from: nat)
    requires ConfigOk(cfg) && cfg.rate > 0 && InOrder(es, t0) && n < |es| && !PassAt(cfg, t0, es, n)
    requires Covered(cfg, RunFrom(cfg, t0, es, n).s, bytes, from)
    ensures Covered(cfg, RunFrom(cfg, t0, es, n + 1).s, bytes + Admitted(es, n + 1) - Admitted(es, n), from)
  {
    var w := RunFrom(cfg, t0, es, n);
    RunKeeps(cfg, t0, es, n);
    ClockIsPast(es, t0, n);
    assert RunFrom(cfg, t0, es, n + 1) == Step(cfg, w, es[n]);
    if IsShaped(es[n]) {
      RefillCovered(cfg, w.s, es[n].at, bytes, from);
    } else {
      UnshapedKeeps(cfg, w, es[n]);
    }
  }

  /** The schedule conforms to the bucket: between any two shaped datagrams with no pass after the first, those
      after the first up to the second carry no more bytes than the bucket and what the rate earns from the
      instant the first may leave to the millisecond after the second may. */
  lemma {:induction false} ScheduleConforms(cfg: Config, t0: nat, es: seq<Event>, i: nat, j: nat)
    requires ConfigOk(cfg) && cfg.rate > 0 && InOrder(es, t0) && i < j < |es| && IsShaped(es[i]) && IsShaped(es[j])
    requires NoPass(cfg, t0, es, i, j + 1)
    ensures 1000 * (Admitted(es, j + 1) - Admitted(es, i + 1))
            < 1000 * cfg.burst + cfg.rate * (LeavesAt(cfg, t0, es, j) + 1 - LeavesAt(cfg, t0, es, i))
  {
    CoveredOver(cfg, t0, es, i, j + 1);
    EndsOnTime(cfg, t0, es, j, Admitted(es, j + 1) - Admitted(es, i + 1), LeavesAt(cfg, t0, es, i));
  }

  lemma EndsOnTime(cfg: Config, t0: nat, es: seq<Event>, j: nat, bytes: int, a: nat)
    requires ConfigOk(cfg) && cfg.rate > 0 && InOrder(es, t0) && j < |es| && IsShaped(es[j])
    requires Covered(cfg, RunFrom(cfg, t0, es, j + 1).s, bytes, a)
    ensures 1000 * bytes < 1000 * cfg.burst + cfg.rate * (LeavesAt(cfg, t0, es, j) + 1 - a)
  {
    LeavesOnTime(cfg, t0, es, j);
    Conforms(cfg, RunFrom(cfg, t0, es, j + 1).s, bytes, a, LeavesAt(cfg, t0, es, j), es[j].at);
  }

  lemma Conforms(cfg: Config, s: Pace, bytes: int, a: nat, b: nat, now: nat)
    requires Covered(cfg, s, bytes, a) && s.lastFill == now && 1000 * s.tokens + cfg.rate * (b - now) + cfg.rate > 0
    ensures 1000 * bytes < 1000 * cfg.burst + cfg.rate * (b + 1 - a)
  {
    assert cfg.rate * (b + 1 - a) == cfg.rate * (now - a) + cfg.rate * (b - now) + cfg.rate;
  }

  // ---- What is counted ------------------------------------------------------------------------------------

  /** How many datagrams too small for a sequence the first n events offer. */
  function Smalls(es: seq<Event>, n: nat): nat
    requires n <= |es|
  {
    if n == 0 then 0
    else
      var e := es[n - 1];
      Smalls(es, n - 1) + (if e.Sent? && Acceptable(e.d) && |e.d.data| < SEQ_MIN_PAY then 1 else 0)
  }

  ghost predicate MadeToWait(cfg: Config, t0: nat, es: seq<Event>, n: nat)
    requires n < |es|
  {
    IsShaped(es[n]) && FateOf(cfg, t0, es, n).Due?
  }

  /** How many of the first n events' datagrams were made to wait, and the longest they were told to. */
  ghost function Waiting(cfg: Config, t0: nat, es: seq<Event>, n: nat): nat
    requires n <= |es|
  {
    if n == 0 then 0 else Waiting(cfg, t0, es, n - 1) + (if MadeToWait(cfg, t0, es, n - 1) then 1 else 0)
  }

  ghost function LongestWait(cfg: Config, t0: nat, es: seq<Event>, n: nat): int
    requires n <= |es|
  {
    if n == 0 then 0
    else
      var most := LongestWait(cfg, t0, es, n - 1);
      if MadeToWait(cfg, t0, es, n - 1) then Max(most, FateOf(cfg, t0, es, n - 1).due - es[n - 1].at) else most
  }

  /** The longest the queue has been. */
  ghost function LongestQueue(cfg: Config, t0: nat, es: seq<Event>, n: nat): int
    requires n <= |es|
  {
    if n == 0 then 0 else Max(LongestQueue(cfg, t0, es, n - 1), |RunFrom(cfg, t0, es, n).s.q|)
  }

  ghost predicate Counts(s: Stats, smalls: nat, waiting: nat, wait: int, queue: int) {
    s.exemptSmall == smalls && s.paced == waiting && s.maxDelay == wait && s.peakQueue == queue
  }

  function Bit(b: bool): nat { if b then 1 else 0 }

  /** What one datagram counts, by what became of it. */
  lemma SendCounts(cfg: Config, w: World, d: Datagram, now: nat)
    requires cfg.rate > 0
    ensures var u, s := Send(cfg, w, d, now).s, w.s.stats;
            var grew, small := |u.q| > |w.s.q|, Acceptable(d) && |d.data| < SEQ_MIN_PAY;
            && Counts(u.stats, s.exemptSmall + Bit(small), s.paced + Bit(grew),
                      if grew then Max(s.maxDelay, u.q[|w.s.q|].due - now) else s.maxDelay,
                      if grew then Max(s.peakQueue, |u.q|) else s.peakQueue)
            && (grew ==> Acceptable(d) && |d.data| >= SEQ_MIN_PAY && Passes(Send(cfg, w, d, now)) == Passes(w))
  {
    if Acceptable(d) {
      EnqueueCases(cfg, w.s, d, now);
      var v := Admit(cfg, w.s, |d.data|, now);
      if v.d == Queued {
        assert Enqueue(v.s, d, v.due).q[|w.s.q|] == Entry(d, v.due);
      }
    }
  }

  lemma TickCountsNone(cfg: Config, w: World, now: nat)
    ensures Tick(w, now).s.stats == w.s.stats && |Tick(w, now).s.q| <= |w.s.q|
  {
  }

  /** One event's part in the counters. */
  lemma StepCounts(cfg: Config, t0: nat, es: seq<Event>, n: nat)
    requires cfg.rate > 0 && n < |es|
    ensures var w, u, e := RunFrom(cfg, t0, es, n), RunFrom(cfg, t0, es, n + 1), es[n];
            var s, waits := w.s.stats, MadeToWait(cfg, t0, es, n);
            && Counts(u.s.stats, s.exemptSmall + Bit(e.Sent? && Acceptable(e.d) && |e.d.data| < SEQ_MIN_PAY),
                      s.paced + Bit(waits),
                      if waits then Max(s.maxDelay, FateOf(cfg, t0, es, n).due - e.at) else s.maxDelay,
                      if waits then Max(s.peakQueue, |u.s.q|) else s.peakQueue)
            && (!waits ==> |u.s.q| <= |w.s.q|)
  {
    var w, e := RunFrom(cfg, t0, es, n), es[n];
    assert RunFrom(cfg, t0, es, n + 1) == Step(cfg, w, e);
    match e
    case Sent(d, at) => SendCounts(cfg, w, d, at);
    case Ticked(at) => TickCountsNone(cfg, w, at);
  }

  ghost predicate CountedTo(cfg: Config, t0: nat, es: seq<Event>, n: nat)
    requires n <= |es|
  {
    && Counts(RunFrom(cfg, t0, es, n).s.stats, Smalls(es, n), Waiting(cfg, t0, es, n), LongestWait(cfg, t0, es, n),
              LongestQueue(cfg, t0, es, n))
    && |RunFrom(cfg, t0, es, n).s.q| <= LongestQueue(cfg, t0, es, n) && LongestWait(cfg, t0, es, n) >= 0
  }

  /** In every run the counters are the number of small datagrams, of those made to wait, the longest wait any was
      given, and the longest the queue has been. */
  lemma {:induction false} CountersCount(cfg: Config, t0: nat, es: seq<Event>, n: nat)
    requires ConfigOk(cfg) && cfg.rate > 0 && InOrder(es, t0) && n <= |es|
    ensures CountedTo(cfg, t0, es, n)
  {
    if n == 0 {
    } else {
      CountersCount(cfg, t0, es, n - 1);
      StepCounts(cfg, t0, es, n - 1);
      NextCounts(cfg, t0, es, n - 1, n);
    }
  }

  lemma NextCounts(cfg: Config, t0: nat, es: seq<Event>, m: nat, n: nat)
    requires m < |es| && n == m + 1
    requires CountedTo(cfg, t0, es, m)
    requires var w, u, e := RunFrom(cfg, t0, es, m), RunFrom(cfg, t0, es, n), es[m];
             var s, waits := w.s.stats, MadeToWait(cfg, t0, es, m);
             && Counts(u.s.stats, s.exemptSmall + Bit(e.Sent? && Acceptable(e.d) && |e.d.data| < SEQ_MIN_PAY),
                       s.paced + Bit(waits),
                       if waits then Max(s.maxDelay, FateOf(cfg, t0, es, m).due - e.at) else s.maxDelay,
                       if waits then Max(s.peakQueue, |u.s.q|) else s.peakQueue)
             && (!waits ==> |u.s.q| <= |w.s.q|)
    ensures CountedTo(cfg, t0, es, n)
  {
  }
}
