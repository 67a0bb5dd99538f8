/** How long the completion-port hook keeps things waiting: the game inside a call, and a held completion
    for its turn. */
module IocpTiming {
  import opened ReorderModel
  import opened HookModel
  import opened IocpModel
  import opened IocpConservation
  import opened IocpScript

  // ---- The game's own wait -------------------------------------------------------------

  /** The k-th real call from turn i on may wait until the deadline, and not at all once it is past. */
  ghost predicate WaitsUntil(r: Result, turns: seq<Turn>, i: nat, deadline: nat) {
    && i <= r.used <= |turns| && |r.waits| == r.used - i + (if r.dogged then 1 else 0)
    && (forall k :: 0 <= k < r.used - i ==> r.waits[k] == Ms(Remaining(turns[i + k].now, deadline)))
    && (r.dogged ==> r.waits[r.used - i] == Ms(0))
  }

  lemma ConsWaits(r: Result, s: Result, turns: seq<Turn>, i: nat, deadline: nat)
    requires i < |turns| && WaitsUntil(r, turns, i + 1, deadline)
    requires s == r.(waits := [Ms(Remaining(turns[i].now, deadline))] + r.waits)
    ensures WaitsUntil(s, turns, i, deadline)
  {
    forall k | 0 <= k < s.used - i ensures s.waits[k] == Ms(Remaining(turns[i + k].now, deadline)) {
      if k > 0 {
        var j := k - 1;
        assert r.waits[j] == Ms(Remaining(turns[i + 1 + j].now, deadline));
      }
    }
  }

  /** Round i ends the call. */
  ghost predicate Ends(h: Hook, turns: seq<Turn>, i: nat, entered: nat, budget: nat)
    requires |h.rx.tbl| > 0 && TurnsOk(turns) && i < |turns|
  {
    Round(h, turns[i]).Again? ==> turns[i].end - entered > budget * WATCHDOG
  }

  lemma EndWaits(h: Hook, turns: seq<Turn>, i: nat, entered: nat, budget: nat, last: Completion)
    requires |h.rx.tbl| > 0 && TurnsOk(turns) && i + Room(h) < |turns| && Ends(h, turns, i, entered, budget)
    ensures WaitsUntil(DequeueFrom(h, turns, i, entered, budget, last), turns, i, entered + budget)
  {
  }

  lemma GoesOn(h: Hook, turns: seq<Turn>, i: nat, entered: nat, budget: nat, last: Completion) returns (g: Hook)
    requires |h.rx.tbl| > 0 && TurnsOk(turns) && i + Room(h) < |turns| && !Ends(h, turns, i, entered, budget)
    ensures g == Round(h, turns[i]).h && |g.rx.tbl| > 0 && Room(g) == Room(h) - 1
    ensures var rest := DequeueFrom(g, turns, i + 1, entered, budget, last);
            DequeueFrom(h, turns, i, entered, budget, last)
            == rest.(waits := [Ms(Remaining(turns[i].now, entered + budget))] + rest.waits)
  {
    DeferTakesRoom(h, turns[i]);
    g := Round(h, turns[i]).h;
  }

  lemma {:induction false} DequeueFromWaits(h: Hook, turns: seq<Turn>, i: nat, entered: nat, budget: nat,
                                            last: Completion)
    requires |h.rx.tbl| > 0 && TurnsOk(turns) && i + Room(h) < |turns|
    ensures WaitsUntil(DequeueFrom(h, turns, i, entered, budget, last), turns, i, entered + budget)
    decreases Room(h)
  {
    if Ends(h, turns, i, entered, budget) {
      EndWaits(h, turns, i, entered, budget, last);
    } else {
      var g := GoesOn(h, turns, i, entered, budget, last);
      DequeueFromWaits(g, turns, i + 1, entered, budget, last);
      ConsWaits(DequeueFrom(g, turns, i + 1, entered, budget, last), DequeueFrom(h, turns, i, entered, budget, last),
                turns, i, entered + budget);
    }
  }

  /** What the game asked for, as a number of milliseconds or no limit. */
  ghost predicate Within(ms: nat, t: Timeout) { t.Ms? ==> ms <= t.ms }

  /** The game never waits longer than it asked: every real call of a reordering call may wait until the
      one deadline set on entry, no further off than the game's timeout and the longest window, so a
      real call that keeps to its wait is back by then. */
  lemma NeverBlocksLonger(h: Hook, turns: seq<Turn>, entered: nat, timeout: Timeout, last: Completion, k: nat)
    requires |h.rx.tbl| > 0 && TurnsOk(turns) && Room(h) < |turns| && !h.disabled
    requires k < Dequeue(h, true, turns, entered, timeout, last).used && entered <= turns[k].now
    ensures var r, budget := Dequeue(h, true, turns, entered, timeout, last), Budget(h.rx.cfg, timeout);
            && |r.waits| == r.used + (if r.dogged then 1 else 0)
            && Within(budget, timeout) && budget <= h.rx.cfg.winMax
            && (budget == h.rx.cfg.winMax || timeout == Ms(budget))
            && r.waits[k].Ms? && r.waits[k].ms <= budget
            && (turns[k].now <= entered + budget ==> turns[k].now + r.waits[k].ms == entered + budget)
            && (turns[k].now > entered + budget ==> r.waits[k].ms == 0)
            && (r.dogged ==> r.waits[r.used] == Ms(0))
  {
    DequeueFromWaits(h, turns, 0, entered, Budget(h.rx.cfg, timeout), last);
    var r := Dequeue(h, true, turns, entered, timeout, last);
    assert r.waits[k] == Ms(Remaining(turns[0 + k].now, entered + Budget(h.rx.cfg, timeout)));
  }

  // ---- A held completion's wait --------------------------------------------------------

  /** The window of a source: that of its entry, or the floor when it has none. */
  function OwnHold(c: Ctx, key: nat): nat {
    var at := FindKey(c.tbl, key, 0);
    HoldWindow(c.cfg, if at < |c.tbl| then c.tbl[at].win else c.cfg.winMin)
  }

  /** A source just looked up: its entry was touched now, or there was no room for one. */
  ghost predicate Seen(c: Ctx, key: nat, now: nat) {
    var at := FindKey(c.tbl, key, 0);
    if at < |c.tbl| then c.tbl[at].lastActivity == now
    else FindKey(c.tbl, 0, 0) == |c.tbl| && forall i :: 0 <= i < |c.tbl| ==> now - c.tbl[i].lastActivity < PEER_IDLE_MS
  }

  lemma LookupSees(c: Ctx, ep: Endpoint, now: nat)
    requires |c.tbl| > 0
    ensures var (d, at) := GetPeer(c, ep, now); Seen(d, KeyOf(ep), now) && HoldFor(d, at) == OwnHold(d, KeyOf(ep))
  {
    LookupFinds(c, ep, now);
  }

  /** Looking up another source in the same scan neither reclaims that entry nor makes room for one. */
  lemma LookupKeepsSeen(c: Ctx, ep: Endpoint, now: nat, key: nat)
    requires |c.tbl| > 0 && key != 0 && Seen(c, key, now)
    ensures var d := GetPeer(c, ep, now).0; Seen(d, key, now) && OwnHold(d, key) == OwnHold(c, key)
  {
    var d, at := GetPeer(c, ep, now).0, FindKey(c.tbl, key, 0);
    if at < |c.tbl| {
      FirstWithKey(d.tbl, key, at, 0);
    } else {
      assert forall j :: 0 <= j < |d.tbl| ==> d.tbl[j].key == c.tbl[j].key;
    }
  }

  lemma {:induction false} ScanKeepsSeen(c: Ctx, held: seq<HeldSlot>, now: nat, i: nat, oldest: nat, key: nat)
    requires |c.tbl| > 0 && key != 0 && Seen(c, key, now)
    requires i <= |held| && oldest <= |held| && (oldest < |held| ==> held[oldest].Holding?)
    ensures OwnHold(PickReady(c, held, now, i, oldest).rx, key) == OwnHold(c, key)
    decreases |held| - i
  {
    if i == |held| {
    } else if held[i].Free? {
      ScanKeepsSeen(c, held, now, i + 1, oldest, key);
    } else {
      var h := held[i];
      var (d, at) := GetPeer(c, h.from, now);
      LookupKeepsSeen(c, h.from, now, key);
      if !IsSuccessor(d, at, h.sn) {
        var due := now < h.ts || now - h.ts >= HoldFor(d, at);
        var pick := if due && (oldest == |held| || h.ts < held[oldest].ts) then i else oldest;
        ScanKeepsSeen(d, held, now, i + 1, pick, key);
      }
    }
  }

  /** Not yet waited out its source's window. */
  ghost predicate Young(c: Ctx, s: HeldSlot, now: nat) {
    s.Holding? ==> s.ts <= now && now - s.ts < OwnHold(c, KeyOf(s.from))
  }

  lemma {:induction false} NoneReadyIsYoung(c: Ctx, held: seq<HeldSlot>, now: nat, i: nat, oldest: nat)
    requires CtxInv(c) && HeldOk(held) && i <= |held| && oldest <= |held| && (oldest < |held| ==> held[oldest].Holding?)
    requires PickReady(c, held, now, i, oldest).slot == |held|
    ensures oldest == |held|
    ensures forall j :: i <= j < |held| ==> Young(PickReady(c, held, now, i, oldest).rx, held[j], now)
    decreases |held| - i
  {
    if i == |held| {
    } else if held[i].Free? {
      NoneReadyIsYoung(c, held, now, i + 1, oldest);
    } else {
      var h := held[i];
      LookupSees(c, h.from, now);
      LookupKeeps(c, h.from, now);
      var (d, at) := GetPeer(c, h.from, now);
      var due := now < h.ts || now - h.ts >= HoldFor(d, at);
      var pick := if due && (oldest == |held| || h.ts < held[oldest].ts) then i else oldest;
      NoneReadyIsYoung(d, held, now, i + 1, pick);
      ScanKeepsSeen(d, held, now, i + 1, pick, KeyOf(h.from));
    }
  }

  /** The peer table as the scan for something releasable leaves it. */
  function Scanned(h: Hook, now: nat): Ctx
    requires |h.rx.tbl| > 0
  {
    PickReady(h.rx, h.held, now, 0, |h.held|).rx
  }

  /** The real call is made only while nothing held has waited out the window of its own source. */
  lemma AskedWhileYoung(h: Hook, t: Turn, j: nat)
    requires HookInv(h) && TurnOk(t) && j < |h.held|
    requires Round(h, t).Again? || Round(h, t).asked
    ensures Young(Scanned(h, t.now), h.held[j], t.now)
  {
    NoneReadyIsYoung(h.rx, h.held, t.now, 0, |h.held|);
  }

  /** So when a real call that may wait w comes back, everything held has been so for less than its
      window and w together. */
  lemma HeldAcrossCall(h: Hook, t: Turn, j: nat, w: nat)
    requires HookInv(h) && TurnOk(t) && j < |h.held| && h.held[j].Holding?
    requires (Round(h, t).Again? || Round(h, t).asked) && t.at <= t.now + w
    ensures t.at - h.held[j].ts < OwnHold(Scanned(h, t.now), KeyOf(h.held[j].from)) + w
  {
    AskedWhileYoung(h, t, j);
  }

  /** Held at that time for its source's window or longer. */
  ghost predicate Overdue(c: Ctx, s: HeldSlot, at: nat)
    requires s.Holding?
  {
    at - s.ts >= OwnHold(c, KeyOf(s.from))
  }

  /** So in a call with that deadline the real call of a round can keep what is held past its window
      exactly when the window ends by the deadline. */
  lemma OverdueIff(h: Hook, t: Turn, j: nat, deadline: nat)
    requires HookInv(h) && TurnOk(t) && j < |h.held| && h.held[j].Holding?
    requires Round(h, t).Again? || Round(h, t).asked
    ensures var c, s := Scanned(h, t.now), h.held[j];
            (exists at :: t.now <= at <= t.now + Remaining(t.now, deadline) && Overdue(c, s, at)) <==>
              s.ts + OwnHold(c, KeyOf(s.from)) <= deadline
  {
    AskedWhileYoung(h, t, j);
    var c, s := Scanned(h, t.now), h.held[j];
    if s.ts + OwnHold(c, KeyOf(s.from)) <= deadline {
      assert Overdue(c, s, t.now + Remaining(t.now, deadline));
    }
  }

  // ---- Over the rounds of a call --------------------------------------------------------

  /** The k-th real call of a call is made by round k, after as many rounds that deferred. */
  lemma {:induction false} RealCallRound(h: Hook, turns: seq<Turn>, i: nat, entered: nat, budget: nat,
                                         last: Completion, k: nat)
    requires HookInv(h) && TurnsOk(turns) && i + Room(h) < |turns|
    requires i <= k < DequeueFrom(h, turns, i, entered, budget, last).used
    ensures k < |turns| && Defers(h, turns, i, k) && HookInv(HookAt(h, turns, i, k))
    ensures var r := Round(HookAt(h, turns, i, k), turns[k]); r.Again? || r.asked
    decreases Room(h)
  {
    if i == k {
    } else {
      RoundKeeps(h, turns[i]);
      DeferTakesRoom(h, turns[i]);
      RealCallRound(Round(h, turns[i]).h, turns, i + 1, entered, budget, last, k);
    }
  }

  /** Of every completion held across any real call of a reordering call: that real call, keeping to the
      wait it was given, can come back after the completion's window exactly when that ends by the time
      the call was entered plus its budget. */
  lemma CallOverdueIff(h: Hook, turns: seq<Turn>, entered: nat, timeout: Timeout, last: Completion, k: nat, j: nat)
    requires HookInv(h) && TurnsOk(turns) && Room(h) < |turns| && !h.disabled
    requires k < Dequeue(h, true, turns, entered, timeout, last).used && Defers(h, turns, 0, k)
    requires var g := HookAt(h, turns, 0, k); j < |g.held| && g.held[j].Holding?
    ensures var r, g, t := Dequeue(h, true, turns, entered, timeout, last), HookAt(h, turns, 0, k), turns[k];
            var c, s := Scanned(g, t.now), g.held[j];
            && |r.waits| > k && r.waits[k].Ms?
            && ((exists at :: t.now <= at <= t.now + r.waits[k].ms && Overdue(c, s, at)) <==>
                  s.ts + OwnHold(c, KeyOf(s.from)) <= entered + Budget(h.rx.cfg, timeout))
  {
    var budget := Budget(h.rx.cfg, timeout);
    RealCallRound(h, turns, 0, entered, budget, last, k);
    DequeueFromWaits(h, turns, 0, entered, budget, last);
    var r := Dequeue(h, true, turns, entered, timeout, last);
    assert r.waits[k] == Ms(Remaining(turns[0 + k].now, entered + budget));
    OverdueIff(HookAt(h, turns, 0, k), turns[k], j, entered + budget);
  }

  /** So when a real call has kept to its wait, nothing is overdue whose window ends after the deadline. */
  lemma CallInWindow(h: Hook, turns: seq<Turn>, entered: nat, timeout: Timeout, last: Completion, k: nat, j: nat)
    requires HookInv(h) && TurnsOk(turns) && Room(h) < |turns| && !h.disabled
    requires k < Dequeue(h, true, turns, entered, timeout, last).used && Defers(h, turns, 0, k)
    requires var g := HookAt(h, turns, 0, k); j < |g.held| && g.held[j].Holding?
    requires var g := HookAt(h, turns, 0, k);
             entered + Budget(h.rx.cfg, timeout)
               < g.held[j].ts + OwnHold(Scanned(g, turns[k].now), KeyOf(g.held[j].from))
    requires turns[k].now <= turns[k].at <= turns[k].now + Remaining(turns[k].now, entered + Budget(h.rx.cfg, timeout))
    ensures !Overdue(Scanned(HookAt(h, turns, 0, k), turns[k].now), HookAt(h, turns, 0, k).held[j], turns[k].at)
  {
    RealCallRound(h, turns, 0, entered, Budget(h.rx.cfg, timeout), last, k);
    OverdueIff(HookAt(h, turns, 0, k), turns[k], j, entered + Budget(h.rx.cfg, timeout));
  }

  // ---- A run in which it happens ---------------------------------------------------------

  const WIDE := Config(true, 150, 10, 0, 1, 1)

  /** Nothing completes before 150. */
  const LONG := Turn(0, NONE, map[], 150, 150)

  /** Packet 1 arrives and sets the cursor; then, asked without a time limit, packet 3 arrives at 0 and
      nothing more. */
  const KEPT := [Posting(true, 1, SPOT),
                 Asking(true, [Completing(1, 0), Completing(1, 0)], 0, Infinite, NONE),
                 Posting(true, 1, SPOT),
                 Asking(true, [Completing(3, 0), LONG], 0, Infinite, NONE)]

  /** After its first round the call holds packet 3, whose window is 10, across a real call that comes back
      at 150. */
  ghost predicate KeptPast(h: Hook) {
    var turns := KEPT[3].turns;
    && |h.rx.tbl| > 0 && TurnsOk(turns) && Defers(h, turns, 0, 1)
    && var g := HookAt(h, turns, 0, 1);
       && g.held == [Holding(DONE, 3, 0, SOURCE)] && OwnHold(Scanned(g, LONG.now), KeyOf(SOURCE)) == 10
       && Round(g, LONG).asked && Overdue(Scanned(g, LONG.now), g.held[0], LONG.at)
  }

  /** With packet 3 held since 0 and its source awaiting 2, nothing is ready at 0, and the real call that
      times out at 150 lets it out overdue. */
  lemma TimesOutLate(g: Hook)
    requires g.held == [Holding(DONE, 3, 0, SOURCE)] && |g.rx.tbl| == 1 && g.rx.cfg == WIDE && g.rx.tbl[0].win == 10
    requires g.rx.tbl[0].key == KeyOf(SOURCE) && g.rx.tbl[0].init && g.rx.tbl[0].last == 1
    ensures Round(g, LONG).Return? && Round(g, LONG).out == DONE && Round(g, LONG).asked
    ensures OwnHold(Scanned(g, LONG.now), KeyOf(SOURCE)) == 10 && Overdue(Scanned(g, LONG.now), g.held[0], LONG.at)
  {
    assert FindKey(g.rx.tbl, KeyOf(SOURCE), 0) == 0;
    assert PickReady(g.rx, g.held, 0, 0, 1).slot == 1;
    assert PickOldest(g.held, 0, 1) == 0;
  }

  lemma Returns(g: Hook, turns: seq<Turn>, i: nat, entered: nat, budget: nat, last: Completion)
    requires |g.rx.tbl| > 0 && TurnsOk(turns) && i + Room(g) < |turns|
    requires Round(g, turns[i]).Return? && Round(g, turns[i]).asked
    ensures DequeueFrom(g, turns, i, entered, budget, last)
            == Result(Round(g, turns[i]).h, Round(g, turns[i]).out, i + 1, false,
                      [Ms(Remaining(turns[i].now, entered + budget))])
  {
  }

  lemma ThirdIsKept(h: Hook)
    requires Awaiting(h, WIDE)
    ensures KeptPast(h)
  {
    var turns := KEPT[3].turns;
    DeferredAhead(h, Completing(3, 0));
    var g := Round(h, turns[0]).h;
    TimesOutLate(g);
    assert HookAt(h, turns, 0, 1) == HookAt(g, turns, 1, 1) == g;
  }

  /** The call defers packet 3 and hands it over when the second real call times out. */
  lemma ThirdWaits(h: Hook, turns: seq<Turn>)
    requires Awaiting(h, WIDE) && turns == KEPT[3].turns && TurnsOk(turns) && Room(h) == 1
    ensures var r := DequeueFrom(h, turns, 0, 0, 150, NONE); r.out == DONE && r.waits == [Ms(150), Ms(150)]
  {
    DeferredAhead(h, Completing(3, 0));
    var g := GoesOn(h, turns, 0, 0, 150, NONE);
    TimesOutLate(Round(h, turns[0]).h);
    Returns(g, turns, 1, 0, 150, NONE);
  }

  /** In this run from an idle hook a packet whose window is 10 ms is handed over 150 ms after it came. */
  lemma OutlivesWindow() returns (hs: seq<Hook>)
    ensures IsRun(KEPT, hs) && StepAt(KEPT, hs, 3) && KeptPast(hs[3])
    ensures ResultAt(KEPT, hs, 3).out == DONE && ResultAt(KEPT, hs, 3).waits == [Ms(150), Ms(150)]
  {
    hs := Opened(WIDE, KEPT);
    CallOk(hs[3], KEPT[3]);
    DeferredAhead(hs[3], Completing(3, 0));
    ThirdWaits(hs[3], KEPT[3].turns);
    ThirdIsKept(hs[3]);
    hs := Appended(KEPT, hs);
  }
}
