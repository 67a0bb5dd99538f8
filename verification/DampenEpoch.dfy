/** The in-band epoch reset, step by step: what keeps the ring in serial order, and exactly when a copy
    of a sequence still in the ring can wipe it. */
module DampenEpoch {
  import opened Serial
  import opened DampenModel
  import opened DampenRun

  function Offset(ring: seq<Slot>, i: nat): int
    requires i < |ring|
  {
    Cmp(ring[i].sn, ring[0].sn)
  }

  /** Each sequence lies ahead of the one before, measured from the head: so ahead of the head by less
      than half the circle. */
  ghost predicate Ascending(ring: seq<Slot>) {
    forall i, j :: 0 <= i < j < |ring| ==> Offset(ring, i) < Offset(ring, j)
  }

  predicate Retains(ring: seq<Slot>, sn: u32) {
    Find(ring, sn, 0) < |ring|
  }

  /** A first copy that is no restart goes beyond everything retained. */
  predicate Extends(ring: seq<Slot>, sn: u32) {
    ring == [] || Cmp(sn, ring[0].sn) > Offset(ring, |ring| - 1)
  }

  /** The ring after a copy, with any reset. */
  function RingAfter(p: Record, cap: nat, sn: u32, now: nat): seq<Slot>
    requires cap > 0
  {
    OnCopy(p, cap, sn, now).0.ring
  }

  lemma DropHead(ring: seq<Slot>, sn: u32)
    requires ring != [] && Ascending(ring) && Extends(ring, sn)
    ensures Ascending(ring[1..]) && Extends(ring[1..], sn)
  {
    if |ring| > 1 {
      var r, n := ring[1..], |ring| - 1;
      assert 0 == Offset(ring, 0) < Offset(ring, 1);
      forall i | 0 <= i < n ensures Offset(r, i) == Offset(ring, i + 1) - Offset(ring, 1) {
        assert Offset(ring, 0) < Offset(ring, i + 1);
        CmpFromOrigin(ring[i + 1].sn, ring[1].sn, ring[0].sn);
      }
      CmpFromOrigin(sn, ring[1].sn, ring[0].sn);
    }
  }

  lemma Append(ring: seq<Slot>, e: Slot)
    requires Ascending(ring) && Extends(ring, e.sn)
    ensures Ascending(ring + [e])
  {
    var r := ring + [e];
    forall i, j | 0 <= i < j < |r| ensures Offset(r, i) < Offset(r, j) {
      assert j < |ring| ==> Offset(ring, i) < Offset(ring, j);
      assert i < |ring| - 1 ==> Offset(ring, i) < Offset(ring, |ring| - 1);
    }
  }

  /** A ring with room that is in serial order stays so exactly when the copy is of a retained
      sequence, is a restart, or goes beyond the ring.  Overflow only needs the last to be sufficient. */
  lemma OrderKeptIff(p: Record, cap: nat, sn: u32, now: nat)
    requires cap > 0 && Ascending(p.ring)
    ensures Retains(p.ring, sn) || Resets(p.ring, sn) || Extends(p.ring, sn)
            ==> Ascending(RingAfter(p, cap, sn, now))
    ensures |p.ring| < cap && Ascending(RingAfter(p, cap, sn, now))
            ==> Retains(p.ring, sn) || Resets(p.ring, sn) || Extends(p.ring, sn)
  {
    var ring := p.ring;
    if Resets(ring, sn) {
      assert RingAfter(p, cap, sn, now) == [Slot(sn, now, WindowFor(p.rtt))];
    } else if Retains(ring, sn) {
      SameSequences(ring, RingAfter(p, cap, sn, now));
    } else {
      var e := Slot(sn, now, WindowFor(p.rtt));
      if Extends(ring, sn) {
        if |ring| >= cap {
          DropHead(ring, sn);
          Append(ring[1..], e);
        } else {
          Append(ring, e);
        }
      } else if |ring| < cap {
        assert RingAfter(p, cap, sn, now) == ring + [e];
        assert !(Offset(ring + [e], |ring| - 1) < Offset(ring + [e], |ring|));
      }
    }
  }

  lemma SameSequences(a: seq<Slot>, b: seq<Slot>)
    requires Ascending(a) && |a| == |b| && forall i :: 0 <= i < |a| ==> a[i].sn == b[i].sn
    ensures Ascending(b)
  {
    forall i, j | 0 <= i < j < |b| ensures Offset(b, i) < Offset(b, j) {
      assert Offset(a, i) < Offset(a, j);
    }
  }

  /** In a ring in serial order a copy of a retained sequence never fires the reset, and a copy reads
      as a first one exactly when its sequence is not retained.  A restart leaves the ring holding
      just its own sequence. */
  lemma ResetExact(p: Record, cap: nat, sn: u32, now: nat)
    requires cap > 0 && Ascending(p.ring)
    ensures Retains(p.ring, sn) ==> !Resets(p.ring, sn)
    ensures OnCopy(p, cap, sn, now).1 == First <==> !Retains(p.ring, sn)
    ensures Resets(p.ring, sn) ==> RingAfter(p, cap, sn, now) == [Slot(sn, now, WindowFor(p.rtt))]
  {
    var i := Find(p.ring, sn, 0);
    if 0 < i < |p.ring| {
      assert Offset(p.ring, 0) < Offset(p.ring, i);
    }
  }

  // ---- Over whole runs ------------------------------------------------------------

  /** Every copy is of a retained sequence, or behind the head, or beyond the ring. */
  ghost predicate FirstsAscend(es: seq<Event>, rs: seq<Record>) {
    && |rs| == |es| + 1
    && forall i :: 0 <= i < |es| && es[i].Attempt? ==>
         Retains(rs[i].ring, es[i].sn) || Resets(rs[i].ring, es[i].sn) || Extends(rs[i].ring, es[i].sn)
  }

  lemma {:induction false} RingAscends(es: seq<Event>, cap: nat, rs: seq<Record>, n: nat)
    requires IsRun(es, cap, rs) && FirstsAscend(es, rs) && n <= |es|
    ensures Ascending(rs[n].ring)
  {
    if n == 0 {
    } else {
      RingAscends(es, cap, rs, n - 1);
      assert StepAt(es, cap, rs, n - 1);
      if es[n - 1].Attempt? {
        OrderKeptIff(rs[n - 1], cap, es[n - 1].sn, es[n - 1].at);
      } else {
        OthersKeepRing(rs[n - 1], cap, es[n - 1]);
      }
    }
  }

  // ---- When retained sequences are safe --------------------------------------------------

  /** No copy of a retained sequence would fire the reset. */
  ghost predicate RetainedSafe(ring: seq<Slot>) {
    forall sn: u32 :: Retains(ring, sn) ==> !Resets(ring, sn)
  }

  ghost predicate HeadLeast(ring: seq<Slot>) {
    forall i :: 0 <= i < |ring| ==> Offset(ring, i) >= 0
  }

  lemma SafeIffHeadLeast(ring: seq<Slot>)
    ensures HeadLeast(ring) <==> RetainedSafe(ring)
  {
    if HeadLeast(ring) {
      forall sn: u32 | Retains(ring, sn) ensures !Resets(ring, sn) {
        assert Offset(ring, Find(ring, sn, 0)) >= 0;
      }
    } else {
      var i :| 0 <= i < |ring| && Offset(ring, i) < 0;
      assert Retains(ring, ring[i].sn) && Resets(ring, ring[i].sn);
    }
  }

  /** The copy is of a new sequence, no restart, and the ring is full. */
  predicate Overflows(ring: seq<Slot>, cap: nat, e: Event) {
    e.Attempt? && !Resets(ring, e.sn) && !Retains(ring, e.sn) && |ring| >= cap
  }

  /** Neither the new sequence nor any other lies behind the second oldest, which becomes the head. */
  predicate NextLeast(ring: seq<Slot>, sn: u32) {
    |ring| > 1 ==>
      Cmp(sn, ring[1].sn) >= 0 && forall j :: 1 <= j < |ring| ==> Cmp(ring[j].sn, ring[1].sn) >= 0
  }

  /** The head dropped and sn appended. */
  lemma OverflowHeadLeastIff(ring: seq<Slot>, q: seq<Slot>, sn: u32)
    requires |q| == |ring| > 0 && q[|q| - 1].sn == sn
    requires forall j :: 0 <= j < |q| - 1 ==> q[j].sn == ring[j + 1].sn
    ensures HeadLeast(q) <==> NextLeast(ring, sn)
  {
    if |ring| > 1 {
      assert forall j :: 1 <= j < |ring| ==> Offset(q, j - 1) == Cmp(ring[j].sn, ring[1].sn);
      assert Offset(q, |q| - 1) == Cmp(sn, ring[1].sn);
    }
  }

  /** The same sequences, or one more that is not behind the head. */
  lemma GrowthHeadLeast(ring: seq<Slot>, q: seq<Slot>, sn: u32)
    requires HeadLeast(ring) && !Resets(ring, sn) && |ring| <= |q| <= |ring| + 1
    requires forall j :: 0 <= j < |ring| ==> q[j].sn == ring[j].sn
    requires |q| > |ring| ==> q[|ring|].sn == sn
    ensures HeadLeast(q)
  {
    forall j | 0 <= j < |q| ensures Offset(q, j) >= 0 {
      assert j < |ring| ==> Offset(ring, j) >= 0;
    }
  }

  /** Only an overflow can leave a head that is not the least. */
  lemma StepHeadLeastIff(p: Record, cap: nat, e: Event)
    requires cap > 0 && HeadLeast(p.ring)
    ensures HeadLeast(After(p, cap, e).ring) <==> (Overflows(p.ring, cap, e) ==> NextLeast(p.ring, e.sn))
  {
    if e.Attempt? {
      CopyShape(p, cap, e.sn, e.at);
      var q := After(p, cap, e).ring;
      if Overflows(p.ring, cap, e) {
        OverflowHeadLeastIff(p.ring, q, e.sn);
      } else if !Resets(p.ring, e.sn) {
        GrowthHeadLeast(p.ring, q, e.sn);
      }
    } else {
      OthersKeepRing(p, cap, e);
    }
  }

  /** Over every run and in any order: at each point no copy of a retained sequence would fire the reset,
      exactly if every overflowing copy so far left a head that is least. */
  lemma {:induction false} RetainedSafeIff(es: seq<Event>, cap: nat, rs: seq<Record>, n: nat)
    requires IsRun(es, cap, rs) && n <= |es|
    ensures (forall m :: 0 <= m <= n ==> RetainedSafe(rs[m].ring))
            <==> (forall k :: 0 <= k < n && Overflows(rs[k].ring, cap, es[k]) ==> NextLeast(rs[k].ring, es[k].sn))
  {
    SafeIffHeadLeast(rs[n].ring);
    if n == 0 {
    } else {
      RetainedSafeIff(es, cap, rs, n - 1);
      SafeIffHeadLeast(rs[n - 1].ring);
      assert StepAt(es, cap, rs, n - 1);
      if HeadLeast(rs[n - 1].ring) {
        StepHeadLeastIff(rs[n - 1], cap, es[n - 1]);
      }
    }
  }

  /** So before the first overflow no copy of a retained sequence fires the reset. */
  lemma SafeWithoutOverflow(es: seq<Event>, cap: nat, rs: seq<Record>, n: nat)
    requires IsRun(es, cap, rs) && n <= |es|
    requires forall k :: 0 <= k < n ==> !Overflows(rs[k].ring, cap, es[k])
    ensures RetainedSafe(rs[n].ring)
  {
    RetainedSafeIff(es, cap, rs, n);
  }

  /** 0, then 2 to cap, then the late 1, which evicts 0; then a copy of 1 within its window. */
  function LateFirst(cap: nat): seq<Event>
    requires 2 <= cap < HALF
  {
    [Attempt(0, 0)] + seq(cap - 1, i requires 0 <= i < cap - 1 => Attempt(i + 2, 0)) + [Attempt(1, 1), Attempt(1, 2)]
  }

  lemma {:induction false} LateFills(cap: nat, rs: seq<Record>, n: nat)
    requires 2 <= cap < HALF && IsRun(LateFirst(cap), cap, rs) && 1 <= n <= cap
    ensures |rs[n].ring| == n && rs[n].ring[0].sn == 0 && rs[n].rtt == 0
    ensures forall i :: 1 <= i < n ==> rs[n].ring[i].sn == i + 1
  {
    assert StepAt(LateFirst(cap), cap, rs, n - 1);
    if n == 1 {
      assert LateFirst(cap)[0] == Attempt(0, 0);
    } else {
      LateFills(cap, rs, n - 1);
      assert LateFirst(cap)[n - 1] == Attempt(n, 0);
    }
  }

  /** For every capacity of two or more there is a run in which the copy of a sequence still in the
      ring, sent one millisecond earlier, fires the reset: it goes out again and everything else is
      forgotten. */
  lemma LateFirstWipes(cap: nat, rs: seq<Record>)
    requires 2 <= cap < HALF && IsRun(LateFirst(cap), cap, rs)
    ensures Retains(rs[cap + 1].ring, 1) && |rs[cap + 1].ring| == cap
    ensures Resets(rs[cap + 1].ring, 1) && OnCopy(rs[cap + 1], cap, 1, 2).1 == First
    ensures rs[cap + 2].ring == [Slot(1, 2, FLOOR_MS)]
  {
    var es := LateFirst(cap);
    LateFills(cap, rs, cap);
    assert es[cap] == Attempt(1, 1) && es[cap + 1] == Attempt(1, 2);
    assert StepAt(es, cap, rs, cap) && StepAt(es, cap, rs, cap + 1);
    var r := rs[cap].ring;
    assert Find(r, 1, 0) == cap;
    assert rs[cap + 1].ring == r[1..] + [Slot(1, 1, FLOOR_MS)];
    assert rs[cap + 1].ring[0].sn == 2 && rs[cap + 1].ring[cap - 1].sn == 1;
  }
}
