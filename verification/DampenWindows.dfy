/** How long the copies of a retained sequence are held back: exactly until its backoff is over, over every run
    of one record and in the table. */
module DampenWindows {
  import opened Serial
  import opened DampenModel
  import opened DampenRun
  import opened DampenTable
  import opened DampenBackoff

  function Power2(x: nat): nat { if x == 0 then 1 else 2 * Power2(x - 1) }

  /** How long a sequence's copies are held back after its x-th resend, when its first copy went out at that
      estimate: 1.2 times it within the bounds, doubled with each resend up to the ceiling. */
  function Holdback(rtt: u32, x: nat): nat {
    var w := WindowFor(rtt) * Power2(x);
    if w > MAX_MS then MAX_MS else w
  }

  lemma HoldbackDoubles(rtt: u32, x: nat)
    ensures Doubled(Holdback(rtt, x)) == Holdback(rtt, x + 1) && Holdback(rtt, 0) == WindowFor(rtt)
  {
    var w, p := WindowFor(rtt), Power2(x);
    assert Power2(x + 1) == 2 * p && w * (2 * p) == 2 * (w * p);
  }

  /** A slot whose log is l has the window its first send and its resends give it. */
  ghost predicate Widened(rs: seq<Record>, e: Slot, l: seq<nat>) {
    |l| > 0 && l[0] < |rs| && e.window == Holdback(rs[l[0]].rtt, |l| - 1)
  }

  ghost predicate AllWidened(rs: seq<Record>, ring: seq<Slot>, log: seq<seq<nat>>) {
    |log| == |ring| && forall i :: 0 <= i < |ring| ==> Widened(rs, ring[i], log[i])
  }

  lemma ResentWidens(rs: seq<Record>, e: Slot, l: seq<nat>, n: nat, now: nat)
    requires Widened(rs, e, l)
    ensures Widened(rs, Slot(e.sn, now, Doubled(e.window)), l + [n])
  {
    HoldbackDoubles(rs[l[0]].rtt, |l| - 1);
  }

  lemma RecordedWidens(rs: seq<Record>, ring: seq<Slot>, log: seq<seq<nat>>, cap: nat, n: nat, sn: u32, now: nat)
    requires cap > 0 && n < |rs| && AllWidened(rs, ring, log)
    ensures AllWidened(rs, Recorded(ring, cap, rs[n].rtt, sn, now), Logged(log, ring, cap, sn, now, n))
  {
    var f := Find(ring, sn, 0);
    var r, l := Recorded(ring, cap, rs[n].rtt, sn, now), Logged(log, ring, cap, sn, now, n);
    HoldbackDoubles(rs[n].rtt, 0);
    var off := if f == |ring| >= cap then 1 else 0;
    forall i | 0 <= i < |r| ensures Widened(rs, r[i], l[i]) {
      if i + off < |ring| {
        assert Widened(rs, ring[i + off], log[i + off]);
        if i == f {
          ResentWidens(rs, ring[f], log[f], n, now);
        }
      }
    }
  }

  /** In every run each retained sequence has exactly the window its log gives it. */
  lemma {:induction false} RunWidened(es: seq<Event>, cap: nat, rs: seq<Record>, ls: seq<seq<seq<nat>>>, n: nat)
    requires IsLog(es, cap, rs, ls) && n <= |es|
    ensures AllWidened(rs, rs[n].ring, ls[n])
  {
    if n == 0 {
    } else {
      RunWidened(es, cap, rs, ls, n - 1);
      assert StepAt(es, cap, rs, n - 1) && LogAt(es, cap, rs, ls, n - 1);
      StepWidened(rs, cap, rs[n - 1], ls[n - 1], es[n - 1], n - 1);
    }
  }

  lemma StepWidened(rs: seq<Record>, cap: nat, p: Record, log: seq<seq<nat>>, e: Event, n: nat)
    requires cap > 0 && n < |rs| && p == rs[n] && AllWidened(rs, p.ring, log)
    ensures AllWidened(rs, After(p, cap, e).ring, LogAfter(log, p, cap, e, n))
  {
    if e.Attempt? {
      RecordedWidens(rs, AfterReset(p.ring, e.sn), if Resets(p.ring, e.sn) then [] else log, cap, n, e.sn, e.at);
    } else {
      OthersKeepRing(p, cap, e);
    }
  }

  /** l lists exactly the events from l[0] on, among the first n, that actually sent sn. */
  ghost predicate SendsOf(es: seq<Event>, rs: seq<Record>, n: nat, sn: u32, l: seq<nat>)
    requires n <= |es| && |rs| == |es| + 1
  {
    && |l| > 0
    && (forall x :: 0 <= x < |l| ==> l[x] < n && Goes(es, rs, l[x], sn))
    && (forall x, y :: 0 <= x < y < |l| ==> l[x] < l[y])
    && (forall m :: l[0] <= m < n && Goes(es, rs, m, sn) ==> m in l)
  }

  /** How long ago the last of them went out. */
  function Since(es: seq<Event>, l: seq<nat>, now: nat): int
    requires |l| > 0 && l[|l| - 1] < |es| && es[l[|l| - 1]].Attempt?
  {
    now - es[l[|l| - 1]].at
  }

  lemma SlotDecides(es: seq<Event>, cap: nat, rs: seq<Record>, ls: seq<seq<seq<nat>>>, n: nat, i: nat, now: nat)
    requires IsLog(es, cap, rs, ls) && ClockOk(es) && n <= |es| && i < |rs[n].ring|
    requires forall k :: 0 <= k < n && es[k].Attempt? ==> es[k].at <= now
    ensures |ls[n]| == |rs[n].ring|
    ensures var sn, l := rs[n].ring[i].sn, ls[n][i];
            && SendsOf(es, rs, n, sn, l) && Since(es, l, now) >= 0
            && (Inside(rs[n].ring[i], now) <==> Since(es, l, now) < Holdback(rs[l[0]].rtt, |l| - 1))
            && Since(es, l, now) == now - rs[n].ring[i].sent
  {
    ResendsBackOff(es, cap, rs, ls, n);
    RunWidened(es, cap, rs, ls, n);
    assert LogTrue(es, rs, n, rs[n].ring[i], ls[n][i]);
    assert Widened(rs, rs[n].ring[i], ls[n][i]);
  }

  lemma RetainedAt(ring: seq<Slot>, i: nat)
    requires Distinct(ring) && i < |ring|
    ensures Find(ring, ring[i].sn, 0) == i
  {
  }

  /** In every run: a copy of a retained sequence that does not fire the reset is held back exactly while less
      time has passed since its last actual send than 1.2 times the estimate at its first one, within 60 and
      400 ms, doubled for each resend up to 400. */
  lemma {:induction false} HeldBackIff(es: seq<Event>, cap: nat, rs: seq<Record>, ls: seq<seq<seq<nat>>>, n: nat,
                                       i: nat)
    requires IsLog(es, cap, rs, ls) && ClockOk(es) && n < |es| && es[n].Attempt?
    requires i < |rs[n].ring| && rs[n].ring[i].sn == es[n].sn && !Resets(rs[n].ring, es[n].sn)
    ensures |ls[n]| == |rs[n].ring|
    ensures var l := ls[n][i];
            && SendsOf(es, rs, n, es[n].sn, l)
            && (Goes(es, rs, n, es[n].sn) <==> Since(es, l, es[n].at) >= Holdback(rs[l[0]].rtt, |l| - 1))
  {
    RunDistinct(es, cap, rs, n);
    RetainedAt(rs[n].ring, i);
    SlotDecides(es, cap, rs, ls, n, i, es[n].at);
  }

  /** And an ack of a retained sequence pulls the estimate an eighth of the way toward the time since its last
      actual send; an ack of any other leaves it. */
  lemma AckTimesLastSend(es: seq<Event>, cap: nat, rs: seq<Record>, ls: seq<seq<seq<nat>>>, n: nat, i: nat)
    requires IsLog(es, cap, rs, ls) && ClockOk(es) && n < |es| && es[n].Acked?
    requires forall k :: 0 <= k < n && es[k].Attempt? ==> es[k].at <= es[n].at
    ensures (forall j :: 0 <= j < |rs[n].ring| ==> rs[n].ring[j].sn != es[n].sn) ==> rs[n + 1] == rs[n]
    ensures |ls[n]| == |rs[n].ring|
    ensures i < |rs[n].ring| && rs[n].ring[i].sn == es[n].sn ==>
              && SendsOf(es, rs, n, es[n].sn, ls[n][i])
              && Since(es, ls[n][i], es[n].at) >= 0
              && rs[n + 1] == rs[n].(rtt := Averaged(rs[n].rtt, Since(es, ls[n][i], es[n].at) % MOD))
  {
    RunDistinct(es, cap, rs, n);
    assert StepAt(es, cap, rs, n) && LogAt(es, cap, rs, ls, n);
    if i < |rs[n].ring| && rs[n].ring[i].sn == es[n].sn {
      RetainedAt(rs[n].ring, i);
      SlotDecides(es, cap, rs, ls, n, i, es[n].at);
    }
  }

  // ---- In the table --------------------------------------------------------------------------------

  /** What became of the copy that is operation k. */
  function Verdict(ops: seq<Op>, cs: seq<Ctx>, k: nat): Copy
    requires k < |ops| && |cs| == |ops| + 1 && ops[k].Admitting? && CtxStep(ops, cs, k)
  {
    Admit(cs[k], ops[k].addr, ops[k].sn, ops[k].len, ops[k].at).1
  }

  /** A peer with a record is judged by it. */
  lemma OwnRecordDecides(cap: nat, peers: nat, ops: seq<Op>, cs: seq<Ctx>, i: nat, n: nat)
    requires IsCtxRun(cap, peers, ops, cs) && n < |ops| && ops[n].Admitting? && ops[n].addr != 0
    requires i < |cs[n].peers| && cs[n].peers[i].addr == ops[n].addr
    ensures CtxStep(ops, cs, n)
    ensures var ring := AfterReset(cs[n].peers[i].rec.ring, ops[n].sn);
            Verdict(ops, cs, n) == Classify(ring, ops[n].sn, ops[n].at)
  {
    RunIsTableRun(cap, peers, ops, cs);
    P.RunUnique(Stepper(cap), BLANK, TableOps(ops), Tables(cs), n);
    assert CtxStep(ops, cs, n);
    assert Tables(cs)[n] == cs[n].peers;
    assert P.FindAddr(cs[n].peers, ops[n].addr, 0) == i;
  }

  /** The state a record's life has led to, and that its copies so far came no later than operation n. */
  lemma LifeSoFar(cap: nat, peers: nat, ops: seq<Op>, cs: seq<Ctx>, addr: nat, i: nat, m: nat, n: nat)
    returns (ls: seq<seq<seq<nat>>>)
    requires IsCtxRun(cap, peers, ops, cs) && Lives(ops, cs, addr, i, m, n) && OffersInOrder(ops)
    requires n < |ops| && ops[n].Admitting?
    ensures var es := Traffic(ops, addr, m, n);
            && IsLog(es, cap, States(es, cap), ls) && ClockOk(es)
            && i < |cs[n].peers| && cs[n].peers[i].addr == addr && cs[n].peers[i].rec == States(es, cap)[|es|]
            && forall k :: 0 <= k < |es| && es[k].Attempt? ==> es[k].at <= ops[n].at
  {
    LifeIsRun(cap, peers, ops, cs, addr, i, m, n);
    var es := Traffic(ops, addr, m, n);
    TrafficClock(ops, addr, m, n);
    ls := LogExists(es, cap, States(es, cap), |es|);
    forall k | 0 <= k < |es| ensures LogAt(es, cap, States(es, cap), ls, k) {
    }
    forall k | 0 <= k < |es| && es[k].Attempt? ensures es[k].at <= ops[n].at {
      assert Before(es[k], ops[n].at);
    }
    assert Tables(cs)[n] == cs[n].peers;
  }

  /** In the table, while a peer's record lives and whatever the other peers do: a copy of a sequence the record
      retains that does not fire the reset is held back exactly as above. */
  lemma TableHeldBackIff(cap: nat, peers: nat, ops: seq<Op>, cs: seq<Ctx>, addr: nat, i: nat, m: nat, n: nat, j: nat)
    returns (l: seq<nat>)
    requires IsCtxRun(cap, peers, ops, cs) && Lives(ops, cs, addr, i, m, n) && OffersInOrder(ops)
    requires n < |ops| && ops[n].Admitting? && ops[n].addr == addr && i < |cs[n].peers|
    requires var ring := cs[n].peers[i].rec.ring;
             j < |ring| && ring[j].sn == ops[n].sn && !Resets(ring, ops[n].sn)
    ensures CtxStep(ops, cs, n)
    ensures var es := Traffic(ops, addr, m, n);
            && SendsOf(es, States(es, cap), |es|, ops[n].sn, l)
            && (Verdict(ops, cs, n) == Suppressed <==>
                Since(es, l, ops[n].at) < Holdback(States(es, cap)[l[0]].rtt, |l| - 1))
  {
    var ls := LifeSoFar(cap, peers, ops, cs, addr, i, m, n);
    var es := Traffic(ops, addr, m, n);
    var rs := States(es, cap);
    OwnRecordDecides(cap, peers, ops, cs, i, n);
    RunDistinct(es, cap, rs, |es|);
    RetainedAt(rs[|es|].ring, j);
    SlotDecides(es, cap, rs, ls, |es|, j, ops[n].at);
    l := ls[|es|][j];
  }

  /** A record holds back only what it retains. */
  lemma SuppressedIsRetained(cap: nat, peers: nat, ops: seq<Op>, cs: seq<Ctx>, n: nat) returns (i: nat, j: nat)
    requires IsCtxRun(cap, peers, ops, cs) && n < |ops| && ops[n].Admitting? && CtxStep(ops, cs, n)
    requires Verdict(ops, cs, n) == Suppressed
    ensures i < |cs[n].peers| && i == P.PlaceOf(cs[n].peers, ops[n].addr) && cs[n].peers[i].addr == ops[n].addr
    ensures var ring := cs[n].peers[i].rec.ring;
            && j < |ring| && ring[j].sn == ops[n].sn && !Resets(ring, ops[n].sn) && j == Find(ring, ops[n].sn, 0)
            && Inside(ring[j], ops[n].at)
  {
    i := P.PlaceOf(cs[n].peers, ops[n].addr);
    j := Find(cs[n].peers[i].rec.ring, ops[n].sn, 0);
  }

  /** The copy that operation n holds back comes within the window of the last send, at that instant, of its
      sequence by the record that began with operation m. */
  ghost predicate InWindow(cap: nat, ops: seq<Op>, cs: seq<Ctx>, n: nat, i: nat, m: nat, l: seq<nat>, at: nat)
    requires cap > 0 && n < |ops| && |cs| == |ops| + 1 && ops[n].Admitting?
  {
    var es := Traffic(ops, ops[n].addr, m, n);
    && Lives(ops, cs, ops[n].addr, i, m, n) && SendsOf(es, States(es, cap), |es|, ops[n].sn, l)
    && es[l[|l| - 1]].at == at
    && at <= ops[n].at < at + Holdback(States(es, cap)[l[0]].rtt, |l| - 1)
  }

  lemma SuppressedInWindow(cap: nat, peers: nat, ops: seq<Op>, cs: seq<Ctx>, n: nat, i: nat, j: nat)
    returns (m: nat, l: seq<nat>)
    requires IsCtxRun(cap, peers, ops, cs) && n < |ops| && ops[n].Admitting? && ops[n].addr != 0 && OffersInOrder(ops)
    requires i < |cs[n].peers| && cs[n].peers[i].addr == ops[n].addr
    requires var ring := cs[n].peers[i].rec.ring;
             j < |ring| && ring[j].sn == ops[n].sn && Inside(ring[j], ops[n].at)
    ensures InWindow(cap, ops, cs, n, i, m, l, cs[n].peers[i].rec.ring[j].sent)
  {
    RunIsTableRun(cap, peers, ops, cs);
    assert Tables(cs)[n] == cs[n].peers && Tables(cs)[0] == cs[0].peers;
    m := P.LifeExists(Stepper(cap), BLANK, TableOps(ops), Tables(cs), ops[n].addr, i, n);
    var ls := LifeSoFar(cap, peers, ops, cs, ops[n].addr, i, m, n);
    var es := Traffic(ops, ops[n].addr, m, n);
    SlotDecides(es, cap, States(es, cap), ls, |es|, j, ops[n].at);
    l := ls[|es|][j];
  }

  // ---- What is counted -------------------------------------------------------------------------------

  /** The ring of a peer, empty if it has no record. */
  function RingOf(c: Ctx, addr: nat): seq<Slot> {
    var i := P.FindAddr(c.peers, addr, 0);
    if i < |c.peers| then c.peers[i].rec.ring else []
  }

  /** One decision's part in the counters: a reset for a sequence behind the head, an overflow for a first copy that
      finds the ring full, and the length of what is held back. */
  lemma AdmitCounts(c: Ctx, addr: nat, sn: u32, len: nat, now: nat)
    requires |c.peers| > 0 && c.cap > 0 && addr != 0
    ensures var ring, s, (d, r) := RingOf(c, addr), c.st, Admit(c, addr, sn, len, now);
            var behind := ring != [] && Cmp(sn, ring[0].sn) < 0;
            d.st == s.(resets := s.resets + Bit(behind),
                       tblFull := s.tblFull
                                  + Bit(!behind && |ring| >= c.cap && forall i :: 0 <= i < |ring| ==> ring[i].sn != sn),
                       suppressed := s.suppressed + Bit(r == Suppressed),
                       bytesSaved := s.bytesSaved + (if r == Suppressed then len else 0),
                       peersEvicted := s.peersEvicted + Bit(P.Crowded(c.peers, addr)))
  {
    assert P.Lookup(c.peers, BLANK, addr, now)[P.PlaceOf(c.peers, addr)].rec.ring == RingOf(c, addr);
  }

  /** The length of a datagram that operation k holds back, or 0. */
  ghost function SavedAt(ops: seq<Op>, cs: seq<Ctx>, k: nat): nat
    requires k < |ops| && |cs| == |ops| + 1 && CtxStep(ops, cs, k)
  {
    if ops[k].Admitting? && Verdict(ops, cs, k) == Suppressed then ops[k].len else 0
  }

  ghost function HeldBackAt(ops: seq<Op>, cs: seq<Ctx>, k: nat): nat
    requires k < |ops| && |cs| == |ops| + 1 && CtxStep(ops, cs, k)
  {
    Bit(ops[k].Admitting? && Verdict(ops, cs, k) == Suppressed)
  }

  /** How many datagrams the first n operations hold back, and their bytes. */
  ghost function HeldBack(ops: seq<Op>, cs: seq<Ctx>, n: nat): nat
    requires n <= |ops| && |cs| == |ops| + 1 && forall i :: 0 <= i < |ops| ==> CtxStep(ops, cs, i)
  {
    if n == 0 then 0 else assert CtxStep(ops, cs, n - 1); HeldBack(ops, cs, n - 1) + HeldBackAt(ops, cs, n - 1)
  }

  ghost function Saved(ops: seq<Op>, cs: seq<Ctx>, n: nat): nat
    requires n <= |ops| && |cs| == |ops| + 1 && forall i :: 0 <= i < |ops| ==> CtxStep(ops, cs, i)
  {
    if n == 0 then 0 else assert CtxStep(ops, cs, n - 1); Saved(ops, cs, n - 1) + SavedAt(ops, cs, n - 1)
  }

  lemma ApplySaves(c: Ctx, op: Op)
    requires |c.peers| > 0 && c.cap > 0
    ensures var held := op.Admitting? && Admit(c, op.addr, op.sn, op.len, op.at).1 == Suppressed;
            && Apply(c, op).st.suppressed == c.st.suppressed + Bit(held)
            && Apply(c, op).st.bytesSaved == c.st.bytesSaved + (if held then op.len else 0)
  {
  }

  /** In every run the counters are how many datagrams were held back and their bytes in all. */
  lemma {:induction false} SavingsAreTrue(cap: nat, peers: nat, ops: seq<Op>, cs: seq<Ctx>, n: nat)
    requires IsCtxRun(cap, peers, ops, cs) && n <= |ops|
    ensures cs[n].st.suppressed == HeldBack(ops, cs, n) && cs[n].st.bytesSaved == Saved(ops, cs, n)
  {
    if n == 0 {
    } else {
      SavingsAreTrue(cap, peers, ops, cs, n - 1);
      assert CtxStep(ops, cs, n - 1);
      ApplySaves(cs[n - 1], ops[n - 1]);
    }
  }
}
