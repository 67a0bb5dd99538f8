/** Suppression is safe: over every run of the whole table, only a copy of something actually sent
    to the same peer a moment ago is ever held back. */
module DampenSafety {
  import opened Serial
  import opened DampenModel
  import opened DampenRun
  import opened DampenTable
  import opened DampenBackoff
  import opened DampenWindows

  /** Operation k actually sent a copy of sn to addr at that time. */
  ghost predicate SendsAt(ops: seq<Op>, cs: seq<Ctx>, k: nat, addr: nat, sn: u32, at: nat)
    requires k < |ops| && |cs| == |ops| + 1
  {
    && ops[k].Admitting? && ops[k].addr == addr && ops[k].sn == sn && ops[k].at == at
    && CtxStep(ops, cs, k) && Verdict(ops, cs, k) != Suppressed
  }

  /** A real peer is not purged by operations k to n. */
  ghost predicate NotPurged(ops: seq<Op>, k: nat, n: nat, addr: nat)
    requires n <= |ops|
  {
    addr != 0 ==> forall m :: k <= m < n ==> ops[m] != Purging(addr)
  }

  /** The entry remembers an actual send since the peer was last purged, and a window within bounds. */
  ghost predicate Backed(ops: seq<Op>, cs: seq<Ctx>, n: nat, addr: nat, e: Slot)
    requires n <= |ops| && |cs| == |ops| + 1
  {
    && FLOOR_MS <= e.window <= MAX_MS
    && exists k :: 0 <= k < n && SendsAt(ops, cs, k, addr, e.sn, e.sent) && NotPurged(ops, k, n, addr)
  }

  ghost predicate RingBacked(ops: seq<Op>, cs: seq<Ctx>, n: nat, addr: nat, ring: seq<Slot>)
    requires n <= |ops| && |cs| == |ops| + 1
  {
    forall j :: 0 <= j < |ring| ==> Backed(ops, cs, n, addr, ring[j])
  }

  ghost predicate TableBacked(ops: seq<Op>, cs: seq<Ctx>, n: nat, ps: seq<P.Entry<Record>>)
    requires n <= |ops| && |cs| == |ops| + 1
  {
    forall i :: 0 <= i < |ps| ==> RingBacked(ops, cs, n, ps[i].addr, ps[i].rec.ring)
  }

  lemma LaterEntry(ops: seq<Op>, cs: seq<Ctx>, n: nat, addr: nat, e: Slot)
    requires n < |ops| && |cs| == |ops| + 1 && Backed(ops, cs, n, addr, e)
    requires addr != 0 ==> ops[n] != Purging(addr)
    ensures Backed(ops, cs, n + 1, addr, e)
  {
    var k :| 0 <= k < n && SendsAt(ops, cs, k, addr, e.sn, e.sent) && NotPurged(ops, k, n, addr);
    assert NotPurged(ops, k, n + 1, addr);
  }

  /** A record of a peer that operation n does not purge stays backed. */
  lemma LaterRing(ops: seq<Op>, cs: seq<Ctx>, n: nat, addr: nat, ring: seq<Slot>)
    requires n < |ops| && |cs| == |ops| + 1 && RingBacked(ops, cs, n, addr, ring)
    requires addr != 0 ==> ops[n] != Purging(addr)
    ensures RingBacked(ops, cs, n + 1, addr, ring)
  {
    var m := n + 1;
    forall j | 0 <= j < |ring| ensures Backed(ops, cs, m, addr, ring[j]) {
      LaterEntry(ops, cs, n, addr, ring[j]);
    }
  }

  lemma Later(ops: seq<Op>, cs: seq<Ctx>, n: nat, ps: seq<P.Entry<Record>>)
    requires n < |ops| && |cs| == |ops| + 1 && TableBacked(ops, cs, n, ps) && !ops[n].Purging?
    ensures TableBacked(ops, cs, n + 1, ps)
  {
    var m := n + 1;
    forall i | 0 <= i < |ps| ensures RingBacked(ops, cs, m, ps[i].addr, ps[i].rec.ring) {
      LaterRing(ops, cs, n, ps[i].addr, ps[i].rec.ring);
    }
  }

  lemma PurgeBacked(ops: seq<Op>, cs: seq<Ctx>, n: nat)
    requires n < |ops| && |cs| == |ops| + 1 && CtxStep(ops, cs, n) && ops[n].Purging?
    requires TableBacked(ops, cs, n, cs[n].peers) && P.Unique(cs[n].peers)
    ensures TableBacked(ops, cs, n + 1, cs[n + 1].peers)
  {
    var m, ps, qs := n + 1, cs[n].peers, cs[n + 1].peers;
    var at := P.FindAddr(ps, ops[n].addr, 0);
    forall i | 0 <= i < |qs| ensures RingBacked(ops, cs, m, qs[i].addr, qs[i].rec.ring) {
      if i != at {
        LaterRing(ops, cs, n, ps[i].addr, ps[i].rec.ring);
      }
    }
  }

  lemma ReplaceBacked(ops: seq<Op>, cs: seq<Ctx>, n: nat, ps: seq<P.Entry<Record>>, i: nat, p: P.Entry<Record>)
    requires n <= |ops| && |cs| == |ops| + 1 && TableBacked(ops, cs, n, ps) && i < |ps|
    requires RingBacked(ops, cs, n, p.addr, p.rec.ring)
    ensures TableBacked(ops, cs, n, ps[i := p])
  {
  }

  lemma LookupBacked(ops: seq<Op>, cs: seq<Ctx>, n: nat, ps: seq<P.Entry<Record>>, addr: nat, now: nat)
    requires n <= |ops| && |cs| == |ops| + 1 && |ps| > 0 && TableBacked(ops, cs, n, ps)
    ensures TableBacked(ops, cs, n, P.Lookup(ps, BLANK, addr, now))
  {
    var i := P.PlaceOf(ps, addr);
    assert RingBacked(ops, cs, n, ps[i].addr, ps[i].rec.ring);
    ReplaceBacked(ops, cs, n, ps, i, P.Lookup(ps, BLANK, addr, now)[i]);
  }

  /** An actual send at now leaves a backed ring backed. */
  lemma RecordedBacked(ops: seq<Op>, cs: seq<Ctx>, n: nat, addr: nat, ring: seq<Slot>, cap: nat, rtt: u32,
      sn: u32, now: nat)
    requires n <= |ops| && |cs| == |ops| + 1 && cap > 0 && RingBacked(ops, cs, n, addr, ring)
    requires Classify(ring, sn, now) != Suppressed ==>
             exists k :: 0 <= k < n && SendsAt(ops, cs, k, addr, sn, now) && NotPurged(ops, k, n, addr)
    ensures RingBacked(ops, cs, n, addr, Recorded(ring, cap, rtt, sn, now))
  {
    var i := Find(ring, sn, 0);
    if i < |ring| {
      assert Backed(ops, cs, n, addr, ring[i]);
    }
    var after := Recorded(ring, cap, rtt, sn, now);
    var off := if i == |ring| >= cap then 1 else 0;
    forall j | 0 <= j < |after| ensures Backed(ops, cs, n, addr, after[j]) {
      assert j + off < |ring| ==> Backed(ops, cs, n, addr, ring[j + off]);
    }
  }

  lemma AdmitBacked(ops: seq<Op>, cs: seq<Ctx>, n: nat)
    requires n < |ops| && |cs| == |ops| + 1 && CtxStep(ops, cs, n) && ops[n].Admitting?
    requires TableBacked(ops, cs, n + 1, cs[n].peers)
    ensures TableBacked(ops, cs, n + 1, cs[n + 1].peers)
  {
    var op, ps := ops[n], cs[n].peers;
    var i, t := P.PlaceOf(ps, op.addr), P.Lookup(ps, BLANK, op.addr, op.at);
    LookupBacked(ops, cs, n + 1, ps, op.addr, op.at);
    assert RingBacked(ops, cs, n + 1, op.addr, t[i].rec.ring);
    var ring := AfterReset(t[i].rec.ring, op.sn);
    if Classify(ring, op.sn, op.at) != Suppressed {
      assert SendsAt(ops, cs, n, op.addr, op.sn, op.at) && NotPurged(ops, n, n + 1, op.addr);
    }
    RecordedBacked(ops, cs, n + 1, op.addr, ring, cs[n].cap, t[i].rec.rtt, op.sn, op.at);
    ReplaceBacked(ops, cs, n + 1, t, i, t[i].(rec := OnCopy(t[i].rec, cs[n].cap, op.sn, op.at).0));
  }

  lemma {:induction false} RunBacked(cap: nat, peers: nat, ops: seq<Op>, cs: seq<Ctx>, n: nat)
    requires IsCtxRun(cap, peers, ops, cs) && n <= |ops|
    ensures TableBacked(ops, cs, n, cs[n].peers) && P.Unique(cs[n].peers)
  {
    if n == 0 {
    } else {
      RunBacked(cap, peers, ops, cs, n - 1);
      assert CtxStep(ops, cs, n - 1);
      ApplyIsTable(cs[n - 1], ops[n - 1]);
      P.ApplyUnique(Stepper(cs[n - 1].cap), BLANK, cs[n - 1].peers, TableOp(ops[n - 1]));
      StepBacked(ops, cs, n - 1);
    }
  }

  lemma StepBacked(ops: seq<Op>, cs: seq<Ctx>, n: nat)
    requires n < |ops| && |cs| == |ops| + 1 && CtxStep(ops, cs, n)
    requires TableBacked(ops, cs, n, cs[n].peers) && P.Unique(cs[n].peers)
    ensures TableBacked(ops, cs, n + 1, cs[n + 1].peers)
  {
    var c, op := cs[n], ops[n];
    if op.Purging? {
      PurgeBacked(ops, cs, n);
    } else {
      Later(ops, cs, n, c.peers);
      if op.Admitting? {
        AdmitBacked(ops, cs, n);
      } else {
        var at := P.FindAddr(c.peers, op.addr, 0);
        if at < |c.peers| {
          assert RingBacked(ops, cs, n + 1, c.peers[at].addr, c.peers[at].rec.ring);
          ReplaceBacked(ops, cs, n + 1, c.peers, at, cs[n + 1].peers[at]);
        }
      }
    }
  }

  /** Whatever was evicted or reset in between: a suppressed copy repeats one that was actually sent to the same
      peer since that peer was last purged, less than 400 ms earlier; and, clock readings being in order, less
      than the window of its record's last send: 1.2 times the estimate at the first, doubled for each resend. */
  lemma SuppressedWasJustSent(cap: nat, peers: nat, ops: seq<Op>, cs: seq<Ctx>, n: nat) returns (k: nat, at: nat)
    requires IsCtxRun(cap, peers, ops, cs) && n < |ops| && ops[n].Admitting? && CtxStep(ops, cs, n)
    requires Verdict(ops, cs, n) == Suppressed
    ensures k < n && SendsAt(ops, cs, k, ops[n].addr, ops[n].sn, at) && NotPurged(ops, k, n, ops[n].addr)
    ensures at <= ops[n].at < at + MAX_MS
    ensures ops[n].addr != 0 && OffersInOrder(ops) ==> exists i, m, l :: InWindow(cap, ops, cs, n, i, m, l, at)
  {
    RunBacked(cap, peers, ops, cs, n);
    var i, j := SuppressedIsRetained(cap, peers, ops, cs, n);
    assert RingBacked(ops, cs, n, ops[n].addr, cs[n].peers[i].rec.ring);
    var e := cs[n].peers[i].rec.ring[j];
    assert Backed(ops, cs, n, ops[n].addr, e);
    k :| 0 <= k < n && SendsAt(ops, cs, k, ops[n].addr, e.sn, e.sent) && NotPurged(ops, k, n, ops[n].addr);
    at := e.sent;
    if ops[n].addr != 0 && OffersInOrder(ops) {
      var m, l := SuppressedInWindow(cap, peers, ops, cs, n, i, j);
    }
  }

  /** So a first copy always goes out: one of a sequence not sent to this peer since it was last
      purged. */
  lemma FirstCopyGoes(cap: nat, peers: nat, ops: seq<Op>, cs: seq<Ctx>, n: nat)
    requires IsCtxRun(cap, peers, ops, cs) && n < |ops| && ops[n].Admitting? && CtxStep(ops, cs, n)
    requires forall k :: 0 <= k < n && ops[k].Admitting? && ops[k].addr == ops[n].addr && ops[k].sn == ops[n].sn
                         ==> !NotPurged(ops, k, n, ops[n].addr)
    ensures Verdict(ops, cs, n) != Suppressed
  {
    if Verdict(ops, cs, n) == Suppressed {
      var k, at := SuppressedWasJustSent(cap, peers, ops, cs, n);
      assert false;
    }
  }
}
