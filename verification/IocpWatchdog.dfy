/** What becomes of held completions: any of them can still go out until the watchdog fires, which it
    only does with one in hand, and none can afterwards. */
module IocpWatchdog {
  import opened ReorderModel
  import opened IocpModel
  import opened IocpConservation
  import opened IocpScript

  // ---- The watchdog fires with something held ----------------------------------------

  ghost predicate Holds(h: Hook, x: Completion) {
    exists s :: 0 <= s < |h.held| && h.held[s].Holding? && h.held[s].comp == x
  }

  lemma DeferralHolds(h: Hook, t: Turn)
    requires |h.rx.tbl| > 0 && TurnOk(t) && Round(h, t).Again?
    ensures Holds(Round(h, t).h, t.comp)
  {
    var g := Round(h, t).h;
    var slot := FindFreeSlot(h.held, 0);
    assert g.held[slot].Holding? && g.held[slot].comp == t.comp;
  }

  lemma {:induction false} DoggedFrom(h: Hook, turns: seq<Turn>, i: nat, entered: nat, budget: nat, last: Completion)
    requires |h.rx.tbl| > 0 && TurnsOk(turns) && i + Room(h) < |turns|
    requires DequeueFrom(h, turns, i, entered, budget, last).dogged
    ensures var r := DequeueFrom(h, turns, i, entered, budget, last);
            && i < r.used && r.h.disabled && Holds(r.h, turns[r.used - 1].comp)
            && turns[r.used - 1].end - entered > budget * WATCHDOG
    decreases Room(h)
  {
    DeferTakesRoom(h, turns[i]);
    DeferralHolds(h, turns[i]);
    if turns[i].end - entered > budget * WATCHDOG {
    } else {
      DoggedFrom(Round(h, turns[i]).h, turns, i + 1, entered, budget, last);
    }
  }

  /** The watchdog fires only at the end of an overlong call, and with what the last real call but one
      returned held: the completion that made it fire is always stranded. */
  lemma DoggedStrands(h: Hook, ready: bool, turns: seq<Turn>, entered: nat, timeout: Timeout, last: Completion)
    requires |h.rx.tbl| > 0 && TurnsOk(turns) && Room(h) < |turns|
    requires Dequeue(h, ready, turns, entered, timeout, last).dogged
    ensures var r := Dequeue(h, ready, turns, entered, timeout, last);
            && 0 < r.used && r.h.disabled && Holds(r.h, turns[r.used - 1].comp)
            && turns[r.used - 1].end - entered > Budget(h.rx.cfg, timeout) * WATCHDOG
  {
    DoggedFrom(h, turns, 0, entered, Budget(h.rx.cfg, timeout), last);
  }

  // ---- When it fires --------------------------------------------------------------------

  /** The rounds of turns i to k all defer, and the last of them ends too late. */
  ghost predicate Overruns(h: Hook, turns: seq<Turn>, i: nat, k: int, entered: nat, budget: nat)
    requires |h.rx.tbl| > 0 && TurnsOk(turns) && i < |turns|
  {
    i <= k < |turns| && Defers(h, turns, i, k + 1) && turns[k].end - entered > budget * WATCHDOG
  }

  lemma OverrunsOn(h: Hook, turns: seq<Turn>, i: nat, k: int, entered: nat, budget: nat)
    requires |h.rx.tbl| > 0 && TurnsOk(turns) && i + 1 < |turns| && Round(h, turns[i]).Again? && i < k
    requires |Round(h, turns[i]).h.rx.tbl| > 0
    ensures Overruns(h, turns, i, k, entered, budget)
            <==> Overruns(Round(h, turns[i]).h, turns, i + 1, k, entered, budget)
  {
  }

  lemma OverrunsLater(h: Hook, g: Hook, turns: seq<Turn>, i: nat, j: nat, entered: nat, budget: nat)
    requires |h.rx.tbl| > 0 && TurnsOk(turns) && j == i + 1 < |turns|
    requires Round(h, turns[i]) == Again(g) && |g.rx.tbl| > 0
    requires turns[i].end - entered <= budget * WATCHDOG
    ensures (exists k :: Overruns(h, turns, i, k, entered, budget))
            <==> exists k :: Overruns(g, turns, j, k, entered, budget)
  {
    if k :| Overruns(h, turns, i, k, entered, budget) {
      OverrunsOn(h, turns, i, k, entered, budget);
    }
    if k :| Overruns(g, turns, j, k, entered, budget) {
      OverrunsOn(h, turns, i, k, entered, budget);
    }
  }

  lemma {:induction false} DoggedFromIff(h: Hook, turns: seq<Turn>, i: nat, entered: nat, budget: nat, last: Completion)
    requires |h.rx.tbl| > 0 && TurnsOk(turns) && i + Room(h) < |turns|
    ensures DequeueFrom(h, turns, i, entered, budget, last).dogged
            <==> exists k :: Overruns(h, turns, i, k, entered, budget)
    decreases Room(h)
  {
    if Round(h, turns[i]).Return? {
      assert forall k :: !Overruns(h, turns, i, k, entered, budget);
    } else {
      DeferTakesRoom(h, turns[i]);
      var g := Round(h, turns[i]).h;
      if turns[i].end - entered > budget * WATCHDOG {
        assert Defers(g, turns, i + 1, i + 1);
        assert Overruns(h, turns, i, i, entered, budget);
      } else {
        DoggedFromIff(g, turns, i + 1, entered, budget, last);
        OverrunsLater(h, g, turns, i, i + 1, entered, budget);
      }
    }
  }

  /** The watchdog fires exactly when some round of the call that defers ends more than five budgets after
      the call was entered: how long anything has been held does not come into it. */
  lemma DoggedIff(h: Hook, ready: bool, turns: seq<Turn>, entered: nat, timeout: Timeout, last: Completion)
    requires |h.rx.tbl| > 0 && TurnsOk(turns) && Room(h) < |turns|
    ensures Dequeue(h, ready, turns, entered, timeout, last).dogged
            <==> ready && !h.disabled
                 && exists k :: Overruns(h, turns, 0, k, entered, Budget(h.rx.cfg, timeout))
  {
    if ready && !h.disabled {
      DoggedFromIff(h, turns, 0, entered, Budget(h.rx.cfg, timeout), last);
    }
  }

  /** A call that does not want to wait has no budget: one deferral that takes a millisecond fires it. */
  lemma {:induction false} PollingFires(h: Hook, turns: seq<Turn>, entered: nat, last: Completion)
    requires |h.rx.tbl| > 0 && TurnsOk(turns) && Room(h) < |turns| && !h.disabled
    requires Round(h, turns[0]).Again? && turns[0].end > entered
    ensures Dequeue(h, true, turns, entered, Ms(0), last).dogged
  {
    var budget := Budget(h.rx.cfg, Ms(0));
    assert budget == 0;
    DeferTakesRoom(h, turns[0]);
    assert Defers(Round(h, turns[0]).h, turns, 1, 1);
    assert Overruns(h, turns, 0, 0, entered, budget);
    DoggedIff(h, true, turns, entered, Ms(0), last);
  }

  // ---- Afterwards nothing held goes out ------------------------------------------------

  /** Once the watchdog has fired, calls go straight through and what was held stays held for good. */
  lemma {:induction false} WatchdogStrands(ops: seq<Op>, hs: seq<Hook>, m: nat, n: nat)
    requires IsRunFrom(ops, hs) && m <= n <= |ops| && hs[m].disabled
    ensures hs[n].disabled && hs[n].held == hs[m].held
    ensures n > m && ops[n - 1].Asking? ==> ResultAt(ops, hs, n - 1).out == ops[n - 1].turns[0].comp
    decreases n
  {
    if n == m {
    } else {
      WatchdogStrands(ops, hs, m, n - 1);
      assert StepAt(ops, hs, n - 1);
    }
  }

  // ---- Until then everything held can --------------------------------------------------

  /** A turn in which nothing completes. */
  const QUIET := Turn(0, NONE, map[], 0, 0)

  /** A call in which nothing completes. */
  function QuietCall(h: Hook): (op: Op)
    ensures op.Asking? && |op.turns| == Room(h) + 1
  {
    Asking(true, seq(Room(h) + 1, _ => QUIET), 0, Infinite, NONE)
  }

  /** g is h without what slot s held. */
  ghost predicate HandedOver(h: Hook, g: Hook, s: nat) {
    && s < |h.held| && h.held[s].Holding? && g.held == h.held[s := Free]
    && g.disabled == h.disabled && Room(g) == Room(h) + 1
  }

  /** While the watchdog has not fired and something is held, a call whose real call times out hands
      over something that was held. */
  lemma TimeoutHandsOver(h: Hook, ready: bool, turns: seq<Turn>, entered: nat, timeout: Timeout, last: Completion)
    returns (s: nat)
    requires |h.rx.tbl| > 0 && TurnsOk(turns) && Room(h) < |turns| && ready && !h.disabled
    requires turns[0].comp.ov == 0 && exists k :: 0 <= k < |h.held| && h.held[k].Holding?
    ensures var r := Dequeue(h, ready, turns, entered, timeout, last);
            HandedOver(h, r.h, s) && r.out == h.held[s].comp && !r.dogged
  {
    var t := turns[0];
    var p := PickReady(h.rx, h.held, t.now, 0, |h.held|);
    s := if p.slot < |h.held| then p.slot else PickOldest(h.held, 0, |h.held|);
    TakeRoom(h.held, s, Free, |h.held|);
  }

  lemma Prepend(h: Hook, op: Op, ops: seq<Op>, hs: seq<Hook>)
    requires HookInv(h) && OpOk(h, op) && IsRunFrom(ops, hs) && hs[0] == Step(h, op)
    ensures IsRunFrom([op] + ops, [h] + hs)
  {
    var os, gs := [op] + ops, [h] + hs;
    forall i | 0 <= i < |os| ensures StepAt(os, gs, i) {
      if i > 0 {
        assert StepAt(ops, hs, i - 1);
      }
    }
  }

  /** The last operation is a call that hands over what slot s has held since the start. */
  ghost predicate HandsOver(ops: seq<Op>, hs: seq<Hook>, s: nat) {
    && |ops| > 0 && |hs| == |ops| + 1
    && StepAt(ops, hs, |ops| - 1) && ops[|ops| - 1].Asking?
    && s < |hs[0].held| && hs[0].held[s].Holding?
    && ResultAt(ops, hs, |ops| - 1).out == hs[0].held[s].comp
    && |hs[|ops| - 1].held| == |hs[|ops|].held| == |hs[0].held|
    && hs[|ops| - 1].held[s] == hs[0].held[s] && hs[|ops|].held[s].Free?
  }

  lemma PrependHandsOver(h: Hook, op: Op, ops: seq<Op>, hs: seq<Hook>, s: nat)
    requires HandsOver(ops, hs, s) && |h.held| == |hs[0].held| && h.held[s] == hs[0].held[s]
    ensures HandsOver([op] + ops, [h] + hs, s)
  {
    var os, gs, n := [op] + ops, [h] + hs, |ops|;
    assert os[n] == ops[n - 1] && gs[n] == hs[n - 1] && gs[n + 1] == hs[n];
  }

  /** With nothing more coming in, calls by the game get at everything held. */
  lemma {:induction false} GetsOut(h: Hook, s: nat) returns (ops: seq<Op>, hs: seq<Hook>)
    requires HookInv(h) && !h.disabled && s < |h.held| && h.held[s].Holding?
    ensures IsRunFrom(ops, hs) && hs[0] == h && HandsOver(ops, hs, s)
    decreases |h.held| - Room(h)
  {
    RoomBounded(h.held, |h.held|);
    var op := QuietCall(h);
    var k := TimeoutHandsOver(h, op.ready, op.turns, op.entered, op.timeout, op.last);
    DequeueConserves(h, op.ready, op.turns, op.entered, op.timeout, op.last, NONE);
    var g := Step(h, op);
    if k == s {
      ops, hs := [op], [h, g];
    } else {
      RoomBounded(g.held, |g.held|);
      var os, gs := GetsOut(g, s);
      Prepend(h, op, os, gs);
      PrependHandsOver(h, op, os, gs, s);
      ops, hs := [op] + os, [h] + gs;
    }
  }

  ghost predicate CanGoOut(h: Hook, s: nat) {
    exists ops: seq<Op>, hs: seq<Hook> :: IsRunFrom(ops, hs) && hs[0] == h && HandsOver(ops, hs, s)
  }

  /** A held completion can still reach the game exactly while the watchdog has not fired. */
  lemma CanGoOutIff(h: Hook, s: nat)
    requires HookInv(h) && s < |h.held| && h.held[s].Holding?
    ensures CanGoOut(h, s) <==> !h.disabled
  {
    if h.disabled {
      forall ops: seq<Op>, hs: seq<Hook> | IsRunFrom(ops, hs) && hs[0] == h ensures !HandsOver(ops, hs, s) {
        WatchdogStrands(ops, hs, 0, |ops|);
      }
    } else {
      var ops, hs := GetsOut(h, s);
    }
  }

  // ---- A run in which it fires -----------------------------------------------------------

  const SMALL := Config(false, 10, 10, 0, 1, 1)

  /** Packet 1 arrives and sets the cursor; packet 3 arrives, and handling it takes 51 ms of a call
      allowed five times 10. */
  const STALLED := [Posting(true, 1, SPOT),
                    Asking(true, [Completing(1, 0), Completing(1, 0)], 0, Infinite, NONE),
                    Posting(true, 1, SPOT),
                    Asking(true, [Completing(3, 51), Completing(3, 51)], 0, Infinite, NONE)]

  /** Packet 3 is deferred, and the watchdog fires with it held. */
  lemma ThirdStalls(h: Hook, op: Op)
    requires Awaiting(h, SMALL) && op == STALLED[3] && OpOk(h, op)
    ensures Answer(h, op).dogged && Holds(Step(h, op), DONE)
  {
    DeferredAhead(h, Completing(3, 51));
    DeferralHolds(h, Completing(3, 51));
  }

  lemma StalledRuns() returns (hs: seq<Hook>)
    ensures IsRun(STALLED, hs) && StepAt(STALLED, hs, 3) && ResultAt(STALLED, hs, 3).dogged
    ensures Holds(hs[4], DONE)
  {
    hs := Opened(SMALL, STALLED);
    CallOk(hs[3], STALLED[3]);
    ThirdStalls(hs[3], STALLED[3]);
    hs := Appended(STALLED, hs);
  }

  /** In this run from an idle hook the watchdog fires, and what it strands can never go out. */
  lemma WatchdogCanFire() returns (hs: seq<Hook>, s: nat)
    ensures IsRun(STALLED, hs) && StepAt(STALLED, hs, 3) && ResultAt(STALLED, hs, 3).dogged
    ensures s < |hs[4].held| && hs[4].held[s].Holding? && hs[4].held[s].comp == DONE && !CanGoOut(hs[4], s)
  {
    hs := StalledRuns();
    s :| 0 <= s < |hs[4].held| && hs[4].held[s].Holding? && hs[4].held[s].comp == DONE;
    var op := STALLED[3];
    DoggedStrands(hs[3], op.ready, op.turns, op.entered, op.timeout, op.last);
    RunConserves(STALLED, hs, 4, DONE);
    CanGoOutIff(hs[4], s);
  }

  /** The same beginning; then a call that does not want to wait, whose one round ends a millisecond after
      it defers packet 3. */
  const POLLED := [Posting(true, 1, SPOT),
                   Asking(true, [Completing(1, 0), Completing(1, 0)], 0, Infinite, NONE),
                   Posting(true, 1, SPOT),
                   Asking(true, [Completing(3, 1), Completing(3, 1)], 0, Ms(0), NONE)]

  /** No hold need overrun: in this run the watchdog fires with a packet held for one millisecond of its
      ten. */
  lemma FiresOnYoungHold() returns (hs: seq<Hook>)
    ensures IsRun(POLLED, hs) && StepAt(POLLED, hs, 3) && ResultAt(POLLED, hs, 3).dogged
    ensures hs[4].held == [Holding(DONE, 3, 0, SOURCE)] && POLLED[3].turns[0].end == 1
    ensures |hs[4].rx.tbl| == 1 && hs[4].rx.tbl[0].key == KeyOf(SOURCE)
    ensures HoldWindow(hs[4].rx.cfg, hs[4].rx.tbl[0].win) == 10
  {
    hs := Opened(SMALL, POLLED);
    var h, op := hs[3], POLLED[3];
    CallOk(h, op);
    DeferredAhead(h, Completing(3, 1));
    PollingFires(h, op.turns, 0, NONE);
    hs := Appended(POLLED, hs);
  }
}
