/** The backoff a retained sequence is held to, over every run of one peer record. */
module DampenBackoff {
  import opened Serial
  import opened DampenModel
  import opened DampenRun
  import opened DampenTable

  function Logged(log: seq<seq<nat>>, ring: seq<Slot>, cap: nat, sn: u32, at: nat, k: nat): (r: seq<seq<nat>>)
    requires cap > 0 && |log| == |ring|
    ensures |r| == |Recorded(ring, cap, 0, sn, at)|
  {
    var i := Find(ring, sn, 0);
    match Classify(ring, sn, at)
    case First => (if |ring| >= cap then log[1..] else log) + [[k]]
    case Resent => log[i := log[i] + [k]]
    case Suppressed => log
  }

  function LogAfter(log: seq<seq<nat>>, p: Record, cap: nat, e: Event, k: nat): (r: seq<seq<nat>>)
    requires cap > 0 && |log| == |p.ring|
    ensures |r| == |After(p, cap, e).ring|
  {
    match e
    case Attempt(sn, at) => Logged(if Resets(p.ring, sn) then [] else log, AfterReset(p.ring, sn), cap, sn, at, k)
    case _ => log
  }

  ghost predicate LogAt(es: seq<Event>, cap: nat, rs: seq<Record>, ls: seq<seq<seq<nat>>>, i: nat)
    requires cap > 0 && i < |es| && |rs| == |ls| == |es| + 1
  {
    |ls[i]| == |rs[i].ring| && ls[i + 1] == LogAfter(ls[i], rs[i], cap, es[i], i)
  }

  /** ls are, along the run rs, for each slot of the ring the events that actually sent it. */
  ghost predicate IsLog(es: seq<Event>, cap: nat, rs: seq<Record>, ls: seq<seq<seq<nat>>>) {
    && IsRun(es, cap, rs) && |ls| == |rs| && ls[0] == []
    && forall i :: 0 <= i < |es| ==> LogAt(es, cap, rs, ls, i)
  }

  ghost predicate ClockOk(es: seq<Event>) {
    forall i, j :: 0 <= i < j < |es| && es[i].Attempt? && es[j].Attempt? ==> es[i].at <= es[j].at
  }

  /** Event m actually sends a copy of sn. */
  predicate Goes(es: seq<Event>, rs: seq<Record>, m: nat, sn: u32)
    requires m < |es| && |rs| == |es| + 1
  {
    es[m].Attempt? && es[m].sn == sn && Classify(AfterReset(rs[m].ring, sn), sn, es[m].at) != Suppressed
  }

  /** The least window after x resends: 60 doubled x times, at most 400. */
  function Rung(x: nat): (w: nat)
    ensures FLOOR_MS <= w <= MAX_MS
  {
    if x == 0 then FLOOR_MS else Doubled(Rung(x - 1))
  }

  /** The first x of them together. */
  function Backoff(x: nat): nat {
    if x == 0 then 0 else Backoff(x - 1) + Rung(x - 1)
  }

  /** l lists exactly the events from l[0] on that sent e's sequence, the last of them when e says. */
  ghost predicate Complete(es: seq<Event>, rs: seq<Record>, n: nat, e: Slot, l: seq<nat>)
    requires n <= |es| && |rs| == |es| + 1
  {
    && |l| > 0
    && (forall x :: 0 <= x < |l| ==> l[x] < n && Goes(es, rs, l[x], e.sn))
    && (forall x, y :: 0 <= x < y < |l| ==> l[x] < l[y])
    && (forall m :: l[0] <= m < n && Goes(es, rs, m, e.sn) ==> m in l)
    && es[l[|l| - 1]].at == e.sent
  }

  /** The x-th resend comes no earlier than the first send and all the windows up to it. */
  ghost predicate BacksOff(es: seq<Event>, e: Slot, l: seq<nat>) {
    && |l| > 0 && e.window >= Rung(|l| - 1) && l[0] < |es| && es[l[0]].Attempt?
    && forall x :: 0 <= x < |l| ==> l[x] < |es| && es[l[x]].Attempt? && es[l[x]].at >= es[l[0]].at + Backoff(x)
  }

  ghost predicate LogTrue(es: seq<Event>, rs: seq<Record>, n: nat, e: Slot, l: seq<nat>)
    requires n <= |es| && |rs| == |es| + 1
  {
    Complete(es, rs, n, e, l) && BacksOff(es, e, l)
  }

  ghost predicate AllTrue(es: seq<Event>, rs: seq<Record>, n: nat, ring: seq<Slot>, log: seq<seq<nat>>)
    requires n <= |es| && |rs| == |es| + 1
  {
    && |log| == |ring|
    && forall i :: 0 <= i < |ring| ==> LogTrue(es, rs, n, ring[i], log[i])
  }

  lemma Unaffected(es: seq<Event>, rs: seq<Record>, n: nat, e: Slot, l: seq<nat>)
    requires n < |es| && |rs| == |es| + 1 && LogTrue(es, rs, n, e, l) && !Goes(es, rs, n, e.sn)
    ensures LogTrue(es, rs, n + 1, e, l)
  {
  }

  /** A copy of a fresh sequence opens its log. */
  lemma Opened(es: seq<Event>, rs: seq<Record>, n: nat, e: Slot)
    requires n < |es| && |rs| == |es| + 1 && Goes(es, rs, n, e.sn) && es[n].at == e.sent && e.window >= FLOOR_MS
    ensures LogTrue(es, rs, n + 1, e, [n])
  {
  }

  /** A resend past the window extends it. */
  lemma Extended(es: seq<Event>, rs: seq<Record>, n: nat, e: Slot, l: seq<nat>, f: Slot)
    requires n < |es| && |rs| == |es| + 1 && ClockOk(es) && LogTrue(es, rs, n, e, l) && Goes(es, rs, n, e.sn)
    requires !Inside(e, es[n].at) && f == Slot(e.sn, es[n].at, Doubled(e.window))
    ensures LogTrue(es, rs, n + 1, f, l + [n])
  {
    ExtendedComplete(es, rs, n, e, l, f);
    ExtendedBackoff(es, rs, n, e, l, f);
  }

  lemma ExtendedComplete(es: seq<Event>, rs: seq<Record>, n: nat, e: Slot, l: seq<nat>, f: Slot)
    requires n < |es| && |rs| == |es| + 1 && Complete(es, rs, n, e, l) && Goes(es, rs, n, e.sn)
    requires f.sn == e.sn && f.sent == es[n].at
    ensures Complete(es, rs, n + 1, f, l + [n])
  {
    var k := l + [n];
    forall m | k[0] <= m < n + 1 && Goes(es, rs, m, f.sn) ensures m in k {
      Listed(es, rs, n, e, l, m);
    }
  }

  lemma Listed(es: seq<Event>, rs: seq<Record>, n: nat, e: Slot, l: seq<nat>, m: nat)
    requires n < |es| && |rs| == |es| + 1 && Complete(es, rs, n, e, l) && l[0] <= m <= n && Goes(es, rs, m, e.sn)
    ensures m in l + [n]
  {
    assert m < n ==> m in l;
    assert (l + [n])[|l|] == n;
  }

  lemma ExtendedBackoff(es: seq<Event>, rs: seq<Record>, n: nat, e: Slot, l: seq<nat>, f: Slot)
    requires n < |es| && |rs| == |es| + 1 && ClockOk(es) && LogTrue(es, rs, n, e, l) && es[n].Attempt?
    requires !Inside(e, es[n].at) && f == Slot(e.sn, es[n].at, Doubled(e.window))
    ensures BacksOff(es, f, l + [n])
  {
    var k, x := l + [n], |l| - 1;
    assert l[x] < n && Goes(es, rs, l[x], e.sn);
    assert es[n].at >= es[l[x]].at + e.window;
    assert Backoff(|l|) == Backoff(x) + Rung(x);
    assert es[l[x]].at >= es[l[0]].at + Backoff(x);
  }

  lemma RecordedTrue(es: seq<Event>, cap: nat, rs: seq<Record>, n: nat, ring: seq<Slot>, log: seq<seq<nat>>, rtt: u32)
    requires cap > 0 && n < |es| && |rs| == |es| + 1 && ClockOk(es) && es[n].Attempt?
    requires AllTrue(es, rs, n, ring, log) && Distinct(ring) && ring == AfterReset(rs[n].ring, es[n].sn)
    ensures AllTrue(es, rs, n + 1, Recorded(ring, cap, rtt, es[n].sn, es[n].at),
                    Logged(log, ring, cap, es[n].sn, es[n].at, n))
  {
    var sn, now := es[n].sn, es[n].at;
    var f := Find(ring, sn, 0);
    match Classify(ring, sn, now)
    case First => FirstTrue(es, rs, n, ring, log, if |ring| >= cap then 1 else 0, Slot(sn, now, WindowFor(rtt)));
    case Resent => ResentTrue(es, rs, n, ring, log, f, Slot(sn, now, Doubled(ring[f].window)));
    case Suppressed => AllUnaffected(es, rs, n, ring, log);
  }

  lemma AllUnaffected(es: seq<Event>, rs: seq<Record>, n: nat, ring: seq<Slot>, log: seq<seq<nat>>)
    requires n < |es| && |rs| == |es| + 1 && AllTrue(es, rs, n, ring, log)
    requires forall j :: 0 <= j < |ring| ==> !Goes(es, rs, n, ring[j].sn)
    ensures AllTrue(es, rs, n + 1, ring, log)
  {
    var m := n + 1;
    forall i | 0 <= i < |ring| ensures LogTrue(es, rs, m, ring[i], log[i]) {
      Unaffected(es, rs, n, ring[i], log[i]);
    }
  }

  lemma FirstTrue(es: seq<Event>, rs: seq<Record>, n: nat, ring: seq<Slot>, log: seq<seq<nat>>, off: nat, e: Slot)
    requires n < |es| && |rs| == |es| + 1 && AllTrue(es, rs, n, ring, log) && off <= |ring|
    requires Goes(es, rs, n, e.sn) && e.sent == es[n].at && e.window >= FLOOR_MS
    requires forall j :: 0 <= j < |ring| ==> ring[j].sn != e.sn
    ensures AllTrue(es, rs, n + 1, ring[off..] + [e], log[off..] + [[n]])
  {
    AllUnaffected(es, rs, n, ring, log);
    Opened(es, rs, n, e);
    var m, r, l := n + 1, ring[off..] + [e], log[off..] + [[n]];
    forall i | 0 <= i < |r| ensures LogTrue(es, rs, m, r[i], l[i]) {
      assert i + off < |ring| ==> LogTrue(es, rs, m, ring[i + off], log[i + off]);
    }
  }

  lemma ResentTrue(es: seq<Event>, rs: seq<Record>, n: nat, ring: seq<Slot>, log: seq<seq<nat>>, f: nat, e: Slot)
    requires n < |es| && |rs| == |es| + 1 && ClockOk(es) && AllTrue(es, rs, n, ring, log) && Distinct(ring)
    requires f < |ring| && Goes(es, rs, n, ring[f].sn) && !Inside(ring[f], es[n].at)
    requires e == Slot(ring[f].sn, es[n].at, Doubled(ring[f].window))
    ensures AllTrue(es, rs, n + 1, ring[f := e], log[f := log[f] + [n]])
  {
    var m, r, l := n + 1, ring[f := e], log[f := log[f] + [n]];
    forall i | 0 <= i < |r| ensures LogTrue(es, rs, m, r[i], l[i]) {
      if i == f {
        Extended(es, rs, n, ring[f], log[f], e);
      } else {
        assert ring[i].sn != ring[f].sn;
        Unaffected(es, rs, n, ring[i], log[i]);
      }
    }
  }

  lemma StepTrue(es: seq<Event>, cap: nat, rs: seq<Record>, ls: seq<seq<seq<nat>>>, n: nat)
    requires cap > 0 && n < |es| && |rs| == |ls| == |es| + 1 && ClockOk(es)
    requires StepAt(es, cap, rs, n) && LogAt(es, cap, rs, ls, n)
    requires AllTrue(es, rs, n, rs[n].ring, ls[n]) && Distinct(rs[n].ring)
    ensures AllTrue(es, rs, n + 1, rs[n + 1].ring, ls[n + 1])
  {
    var p := rs[n];
    if es[n].Attempt? {
      RecordedTrue(es, cap, rs, n, AfterReset(p.ring, es[n].sn), if Resets(p.ring, es[n].sn) then [] else ls[n], p.rtt);
    } else {
      OthersKeepRing(p, cap, es[n]);
      AllUnaffected(es, rs, n, p.ring, ls[n]);
    }
  }

  /** In every run, while a sequence is retained: its log lists exactly the copies of it that went
      out since it was first recorded, and the x-th resend came no earlier than the first send plus
      the first x windows, each at least twice the one before up to the ceiling. */
  lemma {:induction false} ResendsBackOff(es: seq<Event>, cap: nat, rs: seq<Record>, ls: seq<seq<seq<nat>>>, n: nat)
    requires IsLog(es, cap, rs, ls) && ClockOk(es) && n <= |es|
    ensures AllTrue(es, rs, n, rs[n].ring, ls[n])
  {
    if n == 0 {
    } else {
      ResendsBackOff(es, cap, rs, ls, n - 1);
      NextTrue(es, cap, rs, ls, n - 1);
    }
  }

  lemma NextTrue(es: seq<Event>, cap: nat, rs: seq<Record>, ls: seq<seq<seq<nat>>>, n: nat)
    requires IsLog(es, cap, rs, ls) && ClockOk(es) && n < |es| && AllTrue(es, rs, n, rs[n].ring, ls[n])
    ensures AllTrue(es, rs, n + 1, rs[n + 1].ring, ls[n + 1])
  {
    RunDistinct(es, cap, rs, n);
    assert StepAt(es, cap, rs, n) && LogAt(es, cap, rs, ls, n);
    StepTrue(es, cap, rs, ls, n);
  }

  lemma {:induction false} BackoffGrows(x: nat)
    ensures Rung(x) == if x == 0 then 60 else if x == 1 then 120 else if x == 2 then 240 else 400
    ensures x >= 3 ==> Backoff(x) == 420 + 400 * (x - 3)
  {
    if x == 0 {
    } else {
      BackoffGrows(x - 1);
      if x == 3 {
        assert Backoff(1) == 60 && Backoff(2) == 180;
      }
    }
  }

  /** The number of copies grows with elapsed time no faster than one in 400 ms after the first four. */
  lemma CopiesAreFew(es: seq<Event>, cap: nat, rs: seq<Record>, ls: seq<seq<seq<nat>>>, n: nat, i: nat)
    requires IsLog(es, cap, rs, ls) && ClockOk(es) && n <= |es| && i < |rs[n].ring| && i < |ls[n]|
    ensures var l := ls[n][i];
            |l| >= 4 ==> l[0] < n && es[l[0]].Attempt? && rs[n].ring[i].sent - es[l[0]].at >= 420 + 400 * (|l| - 4)
  {
    ResendsBackOff(es, cap, rs, ls, n);
    var l := ls[n][i];
    assert LogTrue(es, rs, n, rs[n].ring[i], l);
    if |l| >= 4 {
      BackoffGrows(|l| - 1);
    }
  }

  // ---- In the table ------------------------------------------------------------------

  /** Every run has its logs. */
  lemma {:induction false} LogExists(es: seq<Event>, cap: nat, rs: seq<Record>, n: nat) returns (ls: seq<seq<seq<nat>>>)
    requires IsRun(es, cap, rs) && n <= |es|
    ensures |ls| == n + 1 && ls[0] == [] && |ls[n]| == |rs[n].ring|
    ensures forall i :: 0 <= i < n ==> |ls[i]| == |rs[i].ring| && ls[i + 1] == LogAfter(ls[i], rs[i], cap, es[i], i)
  {
    if n == 0 {
      ls := [[]];
    } else {
      var front := LogExists(es, cap, rs, n - 1);
      assert StepAt(es, cap, rs, n - 1);
      ls := front + [LogAfter(front[n - 1], rs[n - 1], cap, es[n - 1], n - 1)];
    }
  }

  /** Copies are offered in the order of their clock readings. */
  ghost predicate OffersInOrder(ops: seq<Op>) {
    forall i, j :: 0 <= i < j < |ops| && ops[i].Admitting? && ops[j].Admitting? ==> ops[i].at <= ops[j].at
  }

  predicate Before(e: Event, now: nat) { e.Attempt? ==> e.at <= now }

  lemma {:induction false} TrafficClock(ops: seq<Op>, addr: nat, m: nat, n: nat)
    requires OffersInOrder(ops) && m <= n <= |ops|
    ensures ClockOk(Traffic(ops, addr, m, n))
    ensures forall k, j :: 0 <= k < |Traffic(ops, addr, m, n)| && n <= j < |ops| && ops[j].Admitting?
              ==> Before(Traffic(ops, addr, m, n)[k], ops[j].at)
    decreases n
  {
    if n == m {
    } else {
      TrafficClock(ops, addr, m, n - 1);
      assert TableOps(ops)[n - 1] == TableOp(ops[n - 1]);
    }
  }

  /** In the table: along the life of any record its ring has logs as above, over its own peer's traffic
      alone, whatever the other peers do. */
  lemma TableBacksOff(cap: nat, peers: nat, ops: seq<Op>, cs: seq<Ctx>, addr: nat, i: nat, m: nat, n: nat)
    returns (log: seq<seq<nat>>)
    requires IsCtxRun(cap, peers, ops, cs) && Lives(ops, cs, addr, i, m, n) && OffersInOrder(ops)
    ensures var es := Traffic(ops, addr, m, n);
            i < |cs[n].peers| && AllTrue(es, States(es, cap), |es|, cs[n].peers[i].rec.ring, log)
  {
    LifeIsRun(cap, peers, ops, cs, addr, i, m, n);
    var es := Traffic(ops, addr, m, n);
    var rs := States(es, cap);
    TrafficClock(ops, addr, m, n);
    var ls := LogExists(es, cap, rs, |es|);
    forall k | 0 <= k < |es| ensures LogAt(es, cap, rs, ls, k) {
    }
    ResendsBackOff(es, cap, rs, ls, |es|);
    log := ls[|es|];
  }
}
