/** Whether the epoch reset means a restart.  The sender's own epochs, which nothing on the wire marks,
    are given beside the events; a new one starts its count again behind everything of the last. */
module DampenRestart {
  import opened Serial
  import opened DampenModel
  import opened DampenRun
  import opened DampenEpoch

  /** The event that opened the epoch event n belongs to. */
  function Opening(opens: seq<bool>, n: nat): (s: nat)
    requires n < |opens|
    ensures s <= n && (s > 0 ==> opens[s])
    ensures forall k :: s < k <= n ==> !opens[k]
  {
    if n == 0 || opens[n] then n else Opening(opens, n - 1)
  }

  /** Nothing opens an epoch but the first event. */
  function OneEpoch(n: nat): seq<bool> { seq(n, _ => false) }

  lemma {:induction false} OpeningStable(opens: seq<bool>, k: nat, n: nat)
    requires k <= n < |opens| && Opening(opens, n) <= k
    ensures Opening(opens, k) == Opening(opens, n)
    decreases n
  {
    if k == n {
    } else {
      OpeningStable(opens, k, n - 1);
    }
  }

  /** A sequence counted from its epoch's first. */
  function Num(es: seq<Event>, s: nat, sn: u32): int
    requires s < |es| && es[s].Attempt?
  {
    Cmp(sn, es[s].sn)
  }

  /** The copy repeats one of its own epoch. */
  ghost predicate Repeats(es: seq<Event>, s: nat, n: nat)
    requires n < |es| && es[n].Attempt?
  {
    exists j :: s <= j < n && Sent(es, j, es[n].sn)
  }

  predicate Sent(es: seq<Event>, j: nat, sn: u32)
    requires j < |es|
  {
    es[j].Attempt? && es[j].sn == sn
  }

  /** It goes beyond every copy of its epoch so far. */
  ghost predicate Beyond(es: seq<Event>, s: nat, n: nat)
    requires s <= n < |es| && es[s].Attempt? && es[n].Attempt?
  {
    forall j :: s <= j < n && es[j].Attempt? ==> Num(es, s, es[j].sn) < Num(es, s, es[n].sn)
  }

  ghost predicate Behind(es: seq<Event>, s: nat, n: nat)
    requires s <= n < |es| && es[n].Attempt?
  {
    forall j :: s <= j < n && es[j].Attempt? ==> Cmp(es[n].sn, es[j].sn) < 0
  }

  /** A copy opens a new epoch behind the last one, or stays within half the circle of its epoch's first
      sequence and either repeats one of the epoch or goes beyond them all. */
  ghost predicate InEpoch(es: seq<Event>, opens: seq<bool>, n: nat)
    requires n < |es| == |opens|
  {
    es[n].Attempt? ==>
      if n == 0 then true
      else if opens[n] then Behind(es, Opening(opens, n - 1), n)
      else
        var s := Opening(opens, n);
        es[s].Attempt? && Num(es, s, es[n].sn) >= 0 && (Repeats(es, s, n) || Beyond(es, s, n))
  }

  /** First copies go out in serial order within each epoch, and epochs start over. */
  ghost predicate Epochs(es: seq<Event>, opens: seq<bool>) {
    && |opens| == |es| && (es != [] ==> es[0].Attempt?)
    && (forall k :: 0 <= k < |es| && opens[k] ==> es[k].Attempt?)
    && forall n :: 0 <= n < |es| ==> InEpoch(es, opens, n)
  }

  lemma NumsCompare(es: seq<Event>, opens: seq<bool>, s: nat, j: nat, k: nat)
    requires Epochs(es, opens) && j < |es| && k < |es| && es[j].Attempt? && es[k].Attempt?
    requires Opening(opens, j) == Opening(opens, k) == s
    ensures es[s].Attempt? && Num(es, s, es[j].sn) >= 0 && Num(es, s, es[k].sn) >= 0
    ensures Cmp(es[j].sn, es[k].sn) == Num(es, s, es[j].sn) - Num(es, s, es[k].sn)
  {
    assert InEpoch(es, opens, j) && InEpoch(es, opens, k);
    CmpFromOrigin(es[j].sn, es[k].sn, es[s].sn);
  }

  // ---- The ring holds the current epoch ------------------------------------------------

  /** Every slot's sequence was sent among events s to n. */
  ghost predicate From(es: seq<Event>, s: nat, n: nat, ring: seq<Slot>)
    requires n <= |es|
  {
    ring != [] && forall i :: 0 <= i < |ring| ==> SentIn(es, s, n, ring[i].sn)
  }

  ghost predicate SentIn(es: seq<Event>, s: nat, n: nat, sn: u32)
    requires n <= |es|
  {
    exists j :: s <= j < n && Sent(es, j, sn)
  }

  lemma SentLater(es: seq<Event>, s: nat, n: nat, sn: u32)
    requires n < |es| && SentIn(es, s, n, sn)
    ensures SentIn(es, s, n + 1, sn)
  {
    var j :| s <= j < n && Sent(es, j, sn);
  }

  /** A new epoch always fires the reset. */
  lemma BehindResets(es: seq<Event>, s: nat, n: nat, ring: seq<Slot>)
    requires s <= n < |es| && es[n].Attempt? && Behind(es, s, n) && From(es, s, n, ring)
    ensures Resets(ring, es[n].sn)
  {
    assert SentIn(es, s, n, ring[0].sn);
    var j :| s <= j < n && Sent(es, j, ring[0].sn);
  }

  /** What a copy leaves in the ring was there, or is the copy. */
  lemma CopyFrom(es: seq<Event>, s: nat, n: nat, p: Record, cap: nat)
    requires cap > 0 && s <= n < |es| && es[n].Attempt?
    requires p.ring == [] || Resets(p.ring, es[n].sn) || From(es, s, n, p.ring)
    ensures From(es, s, n + 1, After(p, cap, es[n]).ring)
  {
    var m, q := n + 1, After(p, cap, es[n]).ring;
    CopyShape(p, cap, es[n].sn, es[n].at);
    assert Sent(es, n, es[n].sn) && SentIn(es, s, m, es[n].sn);
    forall i | 0 <= i < |q| ensures SentIn(es, s, m, q[i].sn) {
      if q[i].sn != es[n].sn {
        var j :| 0 <= j < |p.ring| && p.ring[j].sn == q[i].sn;
        SentLater(es, s, n, p.ring[j].sn);
      }
    }
  }

  lemma {:induction false} RingFromEpoch(es: seq<Event>, opens: seq<bool>, cap: nat, rs: seq<Record>, n: nat)
    requires IsRun(es, cap, rs) && Epochs(es, opens) && 0 < n <= |es|
    ensures From(es, Opening(opens, n - 1), n, rs[n].ring)
  {
    var k, s := n - 1, Opening(opens, n - 1);
    assert StepAt(es, cap, rs, k);
    if k == 0 {
      CopyFrom(es, s, k, rs[k], cap);
    } else {
      RingFromEpoch(es, opens, cap, rs, k);
      assert InEpoch(es, opens, k);
      if es[k].Attempt? {
        if opens[k] {
          BehindResets(es, Opening(opens, k - 1), k, rs[k].ring);
        }
        CopyFrom(es, s, k, rs[k], cap);
      } else {
        OthersKeepRing(rs[k], cap, es[k]);
        forall i | 0 <= i < |rs[n].ring| ensures SentIn(es, s, n, rs[n].ring[i].sn) {
          SentLater(es, s, k, rs[k].ring[i].sn);
        }
      }
    }
  }

  /** A restart is always detected, and leaves the ring holding just its own sequence. */
  lemma RestartResets(es: seq<Event>, opens: seq<bool>, cap: nat, rs: seq<Record>, n: nat)
    requires IsRun(es, cap, rs) && Epochs(es, opens) && 0 < n < |es| && opens[n]
    ensures Resets(rs[n].ring, es[n].sn)
    ensures rs[n + 1].ring == [Slot(es[n].sn, es[n].at, WindowFor(rs[n].rtt))] && rs[n + 1].high == es[n].sn
  {
    RingFromEpoch(es, opens, cap, rs, n);
    assert InEpoch(es, opens, n);
    BehindResets(es, Opening(opens, n - 1), n, rs[n].ring);
    assert StepAt(es, cap, rs, n);
  }

  // ---- Resets within an epoch --------------------------------------------------------------

  /** The ring forgets sn at event k, by overflow or by a reset. */
  predicate Loses(rs: seq<Record>, k: nat, sn: u32)
    requires k + 1 < |rs|
  {
    Retains(rs[k].ring, sn) && !Retains(rs[k + 1].ring, sn)
  }

  lemma {:induction false} FindLoss(rs: seq<Record>, sn: u32, a: nat, b: nat) returns (k: nat)
    requires a < b < |rs| && Retains(rs[a].ring, sn) && !Retains(rs[b].ring, sn)
    ensures a <= k < b && Loses(rs, k, sn)
    decreases b
  {
    if !Retains(rs[b - 1].ring, sn) {
      k := FindLoss(rs, sn, a, b - 1);
    } else {
      k := b - 1;
    }
  }

  /** The first copy of a sequence in its epoch. */
  lemma {:induction false} FirstSent(es: seq<Event>, s: nat, n: nat, j: nat) returns (f: nat)
    requires s <= j < n <= |es| && es[j].Attempt?
    ensures s <= f <= j && Sent(es, f, es[j].sn) && forall k :: s <= k < f ==> !Sent(es, k, es[j].sn)
    decreases j
  {
    if k :| s <= k < j && Sent(es, k, es[j].sn) {
      f := FirstSent(es, s, n, k);
    } else {
      f := j;
    }
  }

  /** Everything in the ring before sn is numbered below it. */
  ghost predicate Leading(es: seq<Event>, s: nat, ring: seq<Slot>, sn: u32)
    requires s < |es| && es[s].Attempt?
  {
    forall i :: 0 <= i < Find(ring, sn, 0) && i < |ring| ==> Num(es, s, ring[i].sn) < Num(es, s, sn)
  }

  /** sn alone, or appended to some of a ring that is numbered below it. */
  lemma AppendLeads(es: seq<Event>, s: nat, ring: seq<Slot>, q: seq<Slot>, off: nat, sn: u32)
    requires s < |es| && es[s].Attempt? && off <= |ring| && |q| == |ring| - off + 1 && q[|q| - 1].sn == sn
    requires forall j :: 0 <= j < |q| - 1 ==> q[j].sn == ring[j + off].sn
    requires forall i :: off <= i < |ring| ==> Num(es, s, ring[i].sn) < Num(es, s, sn)
    ensures Retains(q, sn) && Leading(es, s, q, sn)
  {
    assert q[|q| - 1].sn == sn;
    forall j | 0 <= j < Find(q, sn, 0) && j < |q| ensures Num(es, s, q[j].sn) < Num(es, s, sn) {
      assert q[j].sn == ring[j + off].sn;
    }
  }

  /** A copy that starts the ring, or is numbered above everything in it, comes after all before it. */
  lemma NewLeads(es: seq<Event>, s: nat, p: Record, cap: nat, sn: u32, now: nat)
    requires cap > 0 && s < |es| && es[s].Attempt?
    requires Resets(p.ring, sn) || forall i :: 0 <= i < |p.ring| ==> Num(es, s, p.ring[i].sn) < Num(es, s, sn)
    ensures var q := OnCopy(p, cap, sn, now).0.ring; Retains(q, sn) && Leading(es, s, q, sn)
  {
    CopyShape(p, cap, sn, now);
    var q := OnCopy(p, cap, sn, now).0.ring;
    if Resets(p.ring, sn) {
      AppendLeads(es, s, [], q, 0, sn);
    } else {
      assert !Retains(p.ring, sn);
      AppendLeads(es, s, p.ring, q, if |p.ring| >= cap then 1 else 0, sn);
    }
  }

  /** The sequence of event f was not sent before in its epoch. */
  ghost predicate FirstCopy(es: seq<Event>, opens: seq<bool>, f: nat)
    requires f < |es| == |opens|
  {
    es[f].Attempt? && forall k :: Opening(opens, f) <= k < f ==> !Sent(es, k, es[f].sn)
  }

  lemma FirstIsBeyond(es: seq<Event>, opens: seq<bool>, n: nat)
    requires Epochs(es, opens) && 0 < n < |es| && FirstCopy(es, opens, n) && !opens[n]
    ensures es[Opening(opens, n)].Attempt? && Beyond(es, Opening(opens, n), n)
  {
    assert InEpoch(es, opens, n);
    assert !Repeats(es, Opening(opens, n), n);
  }

  lemma OpeningSends(es: seq<Event>, opens: seq<bool>, n: nat)
    requires Epochs(es, opens) && n < |es|
    ensures es[Opening(opens, n)].Attempt?
  {
  }

  /** A first copy comes after everything before it. */
  lemma FirstLeads(es: seq<Event>, opens: seq<bool>, cap: nat, rs: seq<Record>, n: nat)
    requires IsRun(es, cap, rs) && Epochs(es, opens) && n < |es| && FirstCopy(es, opens, n)
    ensures var s := Opening(opens, n);
            es[s].Attempt? && Retains(rs[n + 1].ring, es[n].sn) && Leading(es, s, rs[n + 1].ring, es[n].sn)
  {
    assert StepAt(es, cap, rs, n);
    OpeningSends(es, opens, n);
    if n > 0 {
      RingFromEpoch(es, opens, cap, rs, n);
      if opens[n] {
        RestartResets(es, opens, cap, rs, n);
      } else {
        FirstIsBeyond(es, opens, n);
        BeyondIsLast(es, opens, rs[n].ring, n);
      }
    }
    NewLeads(es, Opening(opens, n), rs[n], cap, es[n].sn, es[n].at);
  }

  /** A copy beyond its epoch is beyond the ring: it does not reset, and is not retained. */
  lemma BeyondIsLast(es: seq<Event>, opens: seq<bool>, ring: seq<Slot>, n: nat)
    requires Epochs(es, opens) && 0 < n < |es| && es[n].Attempt? && !opens[n]
    requires var s := Opening(opens, n); es[s].Attempt? && Beyond(es, s, n) && From(es, s, n, ring)
    ensures var s := Opening(opens, n); forall i :: 0 <= i < |ring| ==> Num(es, s, ring[i].sn) < Num(es, s, es[n].sn)
    ensures !Resets(ring, es[n].sn) && !Retains(ring, es[n].sn)
  {
    var s := Opening(opens, n);
    forall i | 0 <= i < |ring|
      ensures Num(es, s, ring[i].sn) < Num(es, s, es[n].sn) && Cmp(es[n].sn, ring[i].sn) > 0
    {
      assert SentIn(es, s, n, ring[i].sn);
      var j :| s <= j < n && Sent(es, j, ring[i].sn);
      OpeningStable(opens, j, n);
      NumsCompare(es, opens, s, n, j);
    }
  }

  /** While a sequence is retained, whatever happens to the ring leaves only lower numbers before it. */
  lemma LeadingKept(es: seq<Event>, s: nat, p: Record, cap: nat, e: Event, sn: u32)
    requires cap > 0 && s < |es| && es[s].Attempt? && Distinct(p.ring)
    requires Retains(p.ring, sn) && Leading(es, s, p.ring, sn) && Retains(After(p, cap, e).ring, sn)
    ensures Leading(es, s, After(p, cap, e).ring, sn)
  {
    if e.Attempt? {
      CopyShape(p, cap, e.sn, e.at);
      var f, q := Find(p.ring, sn, 0), After(p, cap, e).ring;
      if !Resets(p.ring, e.sn) {
        if Retains(p.ring, e.sn) {
          assert q[f].sn == sn;
        } else {
          var off := if |p.ring| >= cap then 1 else 0;
          if f < off {
            NotInTail(p.ring, q, sn, e.sn);
          } else {
            assert q[f - off].sn == sn;
          }
        }
      }
    } else {
      OthersKeepRing(p, cap, e);
    }
  }

  lemma NotInTail(ring: seq<Slot>, q: seq<Slot>, sn: u32, e: u32)
    requires Distinct(ring) && |q| == |ring| > 0 && ring[0].sn == sn != e && q[|q| - 1].sn == e
    requires forall j :: 0 <= j < |q| - 1 ==> q[j].sn == ring[j + 1].sn
    ensures !Retains(q, sn)
  {
  }

  ghost predicate RetainedIn(rs: seq<Record>, f: nat, n: nat, sn: u32)
    requires n < |rs|
  {
    forall k :: f < k <= n ==> Retains(rs[k].ring, sn)
  }

  /** From its first copy in the epoch on, and while it is retained. */
  lemma {:induction false} LeadsWhileRetained(es: seq<Event>, opens: seq<bool>, cap: nat, rs: seq<Record>,
                                              f: nat, n: nat)
    requires IsRun(es, cap, rs) && Epochs(es, opens) && f < n <= |es| && FirstCopy(es, opens, f)
    requires RetainedIn(rs, f, n, es[f].sn)
    ensures es[Opening(opens, f)].Attempt? && Leading(es, Opening(opens, f), rs[n].ring, es[f].sn)
    decreases n
  {
    if n == f + 1 {
      FirstLeads(es, opens, cap, rs, f);
    } else {
      LeadsWhileRetained(es, opens, cap, rs, f, n - 1);
      LeadsOn(es, Opening(opens, f), cap, rs, n - 1, es[f].sn);
    }
  }

  lemma LeadsOn(es: seq<Event>, s: nat, cap: nat, rs: seq<Record>, n: nat, sn: u32)
    requires IsRun(es, cap, rs) && n < |es| && s < |es| && es[s].Attempt?
    requires Retains(rs[n].ring, sn) && Leading(es, s, rs[n].ring, sn) && Retains(rs[n + 1].ring, sn)
    ensures Leading(es, s, rs[n + 1].ring, sn)
  {
    assert StepAt(es, cap, rs, n);
    RunDistinct(es, cap, rs, n);
    LeadingKept(es, s, rs[n], cap, es[n], sn);
  }

  /** A retained sequence of the current epoch with only lower numbers before it does not fire the reset. */
  lemma LeaderIsSafe(es: seq<Event>, opens: seq<bool>, ring: seq<Slot>, f: nat, n: nat)
    requires Epochs(es, opens) && f < n < |es| && es[f].Attempt? && Opening(opens, f) == Opening(opens, n)
    requires From(es, Opening(opens, n), n, ring) && Retains(ring, es[f].sn)
    requires es[Opening(opens, n)].Attempt? && Leading(es, Opening(opens, n), ring, es[f].sn)
    ensures !Resets(ring, es[f].sn)
  {
    var s := Opening(opens, n);
    assert SentIn(es, s, n, ring[0].sn);
    var j :| s <= j < n && Sent(es, j, ring[0].sn);
    OpeningStable(opens, j, n);
    NumsCompare(es, opens, s, f, j);
  }

  /** In every run the reset fires only on a restart, or on a repeat of a sequence that the ring has lost
      since it was first sent in the epoch. */
  lemma ResetIsRestart(es: seq<Event>, opens: seq<bool>, cap: nat, rs: seq<Record>, n: nat) returns (k: nat)
    requires IsRun(es, cap, rs) && Epochs(es, opens) && n < |es| && es[n].Attempt? && Resets(rs[n].ring, es[n].sn)
    ensures opens[n] || (Opening(opens, n) <= k < n && Repeats(es, Opening(opens, n), n) && Loses(rs, k, es[n].sn))
  {
    k := 0;
    if !opens[n] {
      var s, sn := Opening(opens, n), es[n].sn;
      RingFromEpoch(es, opens, cap, rs, n);
      assert InEpoch(es, opens, n);
      if Beyond(es, s, n) {
        BeyondIsLast(es, opens, rs[n].ring, n);
      }
      assert Repeats(es, s, n);
      var j :| s <= j < n && Sent(es, j, sn);
      var f := FirstSent(es, s, n, j);
      OpeningStable(opens, f, n);
      if RetainedIn(rs, f, n, sn) {
        LeadsWhileRetained(es, opens, cap, rs, f, n);
        LeaderIsSafe(es, opens, rs[n].ring, f, n);
        assert false;
      } else {
        var i :| f < i <= n && !Retains(rs[i].ring, sn);
        FirstLeads(es, opens, cap, rs, f);
        k := FindLoss(rs, sn, f + 1, i);
      }
    }
  }

  // ---- Until the first reset within an epoch ---------------------------------------------------

  /** No copy of the epoch but its first has fired the reset before event n. */
  ghost predicate Undisturbed(es: seq<Event>, s: nat, rs: seq<Record>, n: nat)
    requires n <= |es| && |rs| == |es| + 1
  {
    forall k :: s < k < n && es[k].Attempt? ==> !Resets(rs[k].ring, es[k].sn)
  }

  ghost predicate Ordered(es: seq<Event>, s: nat, ring: seq<Slot>)
    requires s < |es| && es[s].Attempt?
  {
    forall i, j :: 0 <= i < j < |ring| ==> Num(es, s, ring[i].sn) < Num(es, s, ring[j].sn)
  }

  /** Everything sent in the epoch is in the ring, or below its head. */
  ghost predicate Covers(es: seq<Event>, s: nat, n: nat, ring: seq<Slot>)
    requires s < |es| && es[s].Attempt? && n <= |es|
  {
    ring != [] && forall j :: s <= j < n && es[j].Attempt? ==> Covered(es, s, ring, es[j].sn)
  }

  ghost predicate Covered(es: seq<Event>, s: nat, ring: seq<Slot>, sn: u32)
    requires s < |es| && es[s].Attempt? && ring != []
  {
    Retains(ring, sn) || Num(es, s, sn) < Num(es, s, ring[0].sn)
  }

  /** A copy of such an epoch fires the reset exactly when it repeats a sequence the ring no longer holds. */
  lemma CoveredDecides(es: seq<Event>, opens: seq<bool>, ring: seq<Slot>, n: nat)
    requires Epochs(es, opens) && 0 < n < |es| && es[n].Attempt? && !opens[n]
    requires var s := Opening(opens, n);
             es[s].Attempt? && From(es, s, n, ring) && Ordered(es, s, ring) && Covers(es, s, n, ring)
    ensures Resets(ring, es[n].sn) <==> Repeats(es, Opening(opens, n), n) && !Retains(ring, es[n].sn)
  {
    var s, sn := Opening(opens, n), es[n].sn;
    assert InEpoch(es, opens, n) && SentIn(es, s, n, ring[0].sn);
    var h :| s <= h < n && Sent(es, h, ring[0].sn);
    OpeningStable(opens, h, n);
    NumsCompare(es, opens, s, n, h);
    if Repeats(es, s, n) {
      var j :| s <= j < n && Sent(es, j, sn);
      assert Covered(es, s, ring, es[j].sn);
      var f := Find(ring, sn, 0);
      assert 0 < f < |ring| ==> Num(es, s, ring[0].sn) < Num(es, s, ring[f].sn);
    } else {
      BeyondIsLast(es, opens, ring, n);
    }
  }

  /** The same sequences in the same places. */
  lemma SameCovers(es: seq<Event>, s: nat, n: nat, ring: seq<Slot>, q: seq<Slot>)
    requires s < |es| && es[s].Attempt? && n < |es| && Ordered(es, s, ring) && Covers(es, s, n, ring)
    requires |q| == |ring| && forall j :: 0 <= j < |q| ==> q[j].sn == ring[j].sn
    requires es[n].Attempt? ==> Retains(ring, es[n].sn)
    ensures Ordered(es, s, q) && Covers(es, s, n + 1, q)
  {
    var m := n + 1;
    forall j | s <= j < m && es[j].Attempt? ensures Covered(es, s, q, es[j].sn) {
      if j < n {
        assert Covered(es, s, ring, es[j].sn);
      }
      if Retains(ring, es[j].sn) {
        assert q[Find(ring, es[j].sn, 0)].sn == es[j].sn;
      }
    }
  }

  /** One more, numbered above all, and perhaps the head gone. */
  lemma AppendCovers(es: seq<Event>, s: nat, n: nat, ring: seq<Slot>, q: seq<Slot>, off: nat)
    requires s < |es| && es[s].Attempt? && s <= n < |es| && es[n].Attempt?
    requires Ordered(es, s, ring) && Covers(es, s, n, ring)
    requires off <= 1 && |q| == |ring| - off + 1 && q[|q| - 1].sn == es[n].sn
    requires forall j :: 0 <= j < |q| - 1 ==> q[j].sn == ring[j + off].sn
    requires forall i :: 0 <= i < |ring| ==> Num(es, s, ring[i].sn) < Num(es, s, es[n].sn)
    ensures Ordered(es, s, q) && Covers(es, s, n + 1, q)
  {
    var m := n + 1;
    forall i, j | 0 <= i < j < |q| ensures Num(es, s, q[i].sn) < Num(es, s, q[j].sn) {
      assert j < |q| - 1 ==> Num(es, s, ring[i + off].sn) < Num(es, s, ring[j + off].sn);
    }
    assert Num(es, s, ring[0].sn) <= Num(es, s, q[0].sn);
    forall j | s <= j < m && es[j].Attempt? ensures Covered(es, s, q, es[j].sn) {
      if j == n {
        assert q[|q| - 1].sn == es[j].sn;
      } else {
        assert Covered(es, s, ring, es[j].sn);
        var f := Find(ring, es[j].sn, 0);
        if off <= f < |ring| {
          assert q[f - off].sn == es[j].sn;
        } else if f < off {
          assert Num(es, s, ring[0].sn) < Num(es, s, q[0].sn);
        }
      }
    }
  }

  /** The copy that opens an epoch leaves a ring that holds all of it. */
  lemma OpeningCovers(es: seq<Event>, opens: seq<bool>, cap: nat, rs: seq<Record>, s: nat)
    requires IsRun(es, cap, rs) && Epochs(es, opens) && s < |es| && Opening(opens, s) == s
    ensures es[s].Attempt? && Ordered(es, s, rs[s + 1].ring) && Covers(es, s, s + 1, rs[s + 1].ring)
  {
    OpeningSends(es, opens, s);
    assert StepAt(es, cap, rs, s);
    CopyShape(rs[s], cap, es[s].sn, es[s].at);
    if s > 0 {
      RestartResets(es, opens, cap, rs, s);
    }
    var q := rs[s + 1].ring;
    assert |q| == 1 && q[0].sn == es[s].sn;
  }

  lemma {:induction false} RunCovers(es: seq<Event>, opens: seq<bool>, cap: nat, rs: seq<Record>, n: nat)
    requires IsRun(es, cap, rs) && Epochs(es, opens) && n < |es| && Undisturbed(es, Opening(opens, n), rs, n + 1)
    ensures var s := Opening(opens, n);
            es[s].Attempt? && Ordered(es, s, rs[n + 1].ring) && Covers(es, s, n + 1, rs[n + 1].ring)
  {
    if n == Opening(opens, n) {
      OpeningCovers(es, opens, cap, rs, n);
    } else {
      OpeningStable(opens, n - 1, n);
      RunCovers(es, opens, cap, rs, n - 1);
      CoversOn(es, opens, cap, rs, n);
    }
  }

  lemma CoversOn(es: seq<Event>, opens: seq<bool>, cap: nat, rs: seq<Record>, n: nat)
    requires IsRun(es, cap, rs) && Epochs(es, opens) && n < |es| && Opening(opens, n) < n
    requires es[n].Attempt? ==> !Resets(rs[n].ring, es[n].sn)
    requires var s := Opening(opens, n);
             es[s].Attempt? && Ordered(es, s, rs[n].ring) && Covers(es, s, n, rs[n].ring)
    ensures var s := Opening(opens, n); Ordered(es, s, rs[n + 1].ring) && Covers(es, s, n + 1, rs[n + 1].ring)
  {
    var s, ring, q := Opening(opens, n), rs[n].ring, rs[n + 1].ring;
    assert StepAt(es, cap, rs, n);
    if es[n].Attempt? {
      OpeningStable(opens, n - 1, n);
      RingFromEpoch(es, opens, cap, rs, n);
      CoveredDecides(es, opens, ring, n);
      CopyShape(rs[n], cap, es[n].sn, es[n].at);
      if Retains(ring, es[n].sn) {
        SameCovers(es, s, n, ring, q);
      } else {
        assert InEpoch(es, opens, n);
        BeyondIsLast(es, opens, ring, n);
        AppendCovers(es, s, n, ring, q, if |ring| >= cap then 1 else 0);
      }
    } else {
      OthersKeepRing(rs[n], cap, es[n]);
      SameCovers(es, s, n, ring, q);
    }
  }

  /** Until a copy other than its first fires the reset, an epoch's copies fire it exactly when they
      restart, or repeat a sequence of the epoch that the ring has evicted. */
  lemma ResetIff(es: seq<Event>, opens: seq<bool>, cap: nat, rs: seq<Record>, n: nat)
    requires IsRun(es, cap, rs) && Epochs(es, opens) && 0 < n < |es| && es[n].Attempt?
    requires Undisturbed(es, Opening(opens, n), rs, n)
    ensures Resets(rs[n].ring, es[n].sn) <==>
              opens[n] || (Repeats(es, Opening(opens, n), n) && !Retains(rs[n].ring, es[n].sn))
  {
    if opens[n] {
      RestartResets(es, opens, cap, rs, n);
    } else {
      OpeningStable(opens, n - 1, n);
      RunCovers(es, opens, cap, rs, n - 1);
      RingFromEpoch(es, opens, cap, rs, n);
      CoveredDecides(es, opens, rs[n].ring, n);
    }
  }

  // ---- In any order ----------------------------------------------------------------------------

  /** Event s starts the ring. */
  predicate Starts(es: seq<Event>, rs: seq<Record>, s: nat)
    requires s < |es| && s < |rs|
  {
    es[s].Attempt? && (rs[s].ring == [] || Resets(rs[s].ring, es[s].sn))
  }

  /** Between events s and n nothing fires the reset or overflows the ring. */
  ghost predicate Steady(es: seq<Event>, cap: nat, rs: seq<Record>, s: nat, n: nat)
    requires n <= |es| && |rs| == |es| + 1
  {
    forall k :: s < k < n && es[k].Attempt? ==> !Resets(rs[k].ring, es[k].sn) && !Overflows(rs[k].ring, cap, es[k])
  }

  lemma {:induction false} HeadStays(es: seq<Event>, cap: nat, rs: seq<Record>, s: nat, n: nat)
    requires IsRun(es, cap, rs) && s < n <= |es| && Starts(es, rs, s) && Steady(es, cap, rs, s, n)
    ensures rs[n].ring != [] && rs[n].ring[0].sn == es[s].sn
    decreases n
  {
    var k := n - 1;
    assert StepAt(es, cap, rs, k);
    if es[k].Attempt? {
      CopyShape(rs[k], cap, es[k].sn, es[k].at);
    } else {
      OthersKeepRing(rs[k], cap, es[k]);
    }
    if k == s {
    } else {
      HeadStays(es, cap, rs, s, k);
    }
  }

  /** Until the ring next overflows or is reset, whatever the order: the reset fires exactly on a sequence
      behind the one that started the ring, restart or not. */
  lemma FiresIffBehindStart(es: seq<Event>, cap: nat, rs: seq<Record>, s: nat, n: nat)
    requires IsRun(es, cap, rs) && s < n < |es| && es[n].Attempt? && Starts(es, rs, s) && Steady(es, cap, rs, s, n)
    ensures Resets(rs[n].ring, es[n].sn) <==> Cmp(es[n].sn, es[s].sn) < 0
  {
    HeadStays(es, cap, rs, s, n);
  }

  /** The ring's head was offered before. */
  lemma {:induction false} HeadSent(es: seq<Event>, cap: nat, rs: seq<Record>, n: nat)
    requires IsRun(es, cap, rs) && n <= |es|
    ensures rs[n].ring == [] || From(es, 0, n, rs[n].ring)
  {
    if n == 0 {
    } else {
      var k := n - 1;
      HeadSent(es, cap, rs, k);
      assert StepAt(es, cap, rs, k);
      if es[k].Attempt? {
        CopyFrom(es, 0, k, rs[k], cap);
      } else {
        OthersKeepRing(rs[k], cap, es[k]);
        forall i | 0 <= i < |rs[n].ring| ensures SentIn(es, 0, n, rs[n].ring[i].sn) {
          SentLater(es, 0, k, rs[k].ring[i].sn);
        }
      }
    }
  }

  /** A first copy of its epoch that comes late: a sequence ahead of it was offered before. */
  ghost predicate LateFirstCopy(es: seq<Event>, opens: seq<bool>, n: nat)
    requires n < |es| == |opens|
  {
    FirstCopy(es, opens, n) && exists j :: 0 <= j < n && IsAhead(es, j, n)
  }

  predicate IsAhead(es: seq<Event>, j: nat, n: nat)
    requires j < |es| && n < |es|
  {
    es[j].Attempt? && es[n].Attempt? && Cmp(es[n].sn, es[j].sn) < 0
  }

  /** A repeat of its epoch whose sequence the ring lost at event k of it. */
  ghost predicate LostRepeat(es: seq<Event>, opens: seq<bool>, rs: seq<Record>, k: nat, n: nat)
    requires n < |es| == |opens| && |rs| == |es| + 1
  {
    es[n].Attempt? && Opening(opens, n) <= k < n && Repeats(es, Opening(opens, n), n) && Loses(rs, k, es[n].sn)
  }

  /** Event k overflowed the ring and left a head that was not the least. */
  ghost predicate Disordered(es: seq<Event>, cap: nat, rs: seq<Record>, k: nat)
    requires k < |es| && k < |rs|
  {
    Overflows(rs[k].ring, cap, es[k]) && !NextLeast(rs[k].ring, es[k].sn)
  }

  /** A retained sequence fires the reset only after such an overflow. */
  lemma RetainedResets(es: seq<Event>, cap: nat, rs: seq<Record>, n: nat)
    requires IsRun(es, cap, rs) && n < |es| && es[n].Attempt?
    requires Retains(rs[n].ring, es[n].sn) && Resets(rs[n].ring, es[n].sn)
    ensures exists k :: 0 <= k < n && Disordered(es, cap, rs, k)
  {
    assert !RetainedSafe(rs[n].ring);
    RetainedSafeIff(es, cap, rs, n);
    var k :| 0 <= k < n && Overflows(rs[k].ring, cap, es[k]) && !NextLeast(rs[k].ring, es[k].sn);
    assert Disordered(es, cap, rs, k);
  }

  /** In every run, in any order and for any marking of epochs, there are four causes of a reset: a new
      epoch, a late first copy, a repeat of what the ring has lost, and an overflow out of order. */
  lemma ResetCause(es: seq<Event>, opens: seq<bool>, cap: nat, rs: seq<Record>, n: nat)
    requires IsRun(es, cap, rs) && |opens| == |es| && n < |es| && es[n].Attempt? && Resets(rs[n].ring, es[n].sn)
    ensures opens[n] || LateFirstCopy(es, opens, n)
            || (exists k :: 0 <= k < n && LostRepeat(es, opens, rs, k, n))
            || exists k :: 0 <= k < n && Disordered(es, cap, rs, k)
  {
    var s, sn := Opening(opens, n), es[n].sn;
    if FirstCopy(es, opens, n) {
      HeadSent(es, cap, rs, n);
      assert SentIn(es, 0, n, rs[n].ring[0].sn);
      var j :| 0 <= j < n && Sent(es, j, rs[n].ring[0].sn);
      assert IsAhead(es, j, n);
    } else if Retains(rs[n].ring, sn) {
      RetainedResets(es, cap, rs, n);
    } else {
      var j :| s <= j < n && Sent(es, j, sn);
      assert StepAt(es, cap, rs, j);
      CopyRetains(rs[j], cap, sn, es[j].at);
      var k := FindLoss(rs, sn, j + 1, n);
      assert LostRepeat(es, opens, rs, k, n);
    }
  }

  lemma CopyRetains(p: Record, cap: nat, sn: u32, now: nat)
    requires cap > 0
    ensures Retains(OnCopy(p, cap, sn, now).0.ring, sn)
  {
    var q := OnCopy(p, cap, sn, now).0.ring;
    CopyShape(p, cap, sn, now);
    var f := Find(p.ring, sn, 0);
    assert f < |p.ring| && !Resets(p.ring, sn) ==> q[f].sn == sn;
    assert q[|q| - 1].sn == sn || f < |p.ring|;
  }

  /** 5, then the late 4, then 5 again a millisecond after it went out. */
  const LATE := [Attempt(5, 0), Attempt(4, 0), Attempt(5, 1)]

  /** With room to spare, the late first copy fires the reset, and the repeat of 5 goes out as new. */
  lemma LateFirstFires(cap: nat, rs: seq<Record>)
    requires 2 <= cap && IsRun(LATE, cap, rs)
    ensures !Overflows(rs[0].ring, cap, LATE[0]) && !Overflows(rs[1].ring, cap, LATE[1])
    ensures Resets(rs[1].ring, 4) && LateFirstCopy(LATE, OneEpoch(3), 1)
    ensures rs[2].ring == [Slot(4, 0, FLOOR_MS)] && OnCopy(rs[2], cap, 5, 1).1 == First
  {
    assert StepAt(LATE, cap, rs, 0) && StepAt(LATE, cap, rs, 1);
    assert rs[1].ring == [Slot(5, 0, FLOOR_MS)];
    assert IsAhead(LATE, 0, 1);
    assert Find(rs[2].ring, 5, 0) == 1;
  }

  // ---- A repeat taken for a restart ------------------------------------------------------------

  /** 0 to cap, which evicts 0, and then a copy of 0 again, in one epoch. */
  function EvictedRepeat(cap: nat): seq<Event>
    requires 0 < cap < HALF
  {
    seq(cap + 1, i requires 0 <= i <= cap => Attempt(i, i)) + [Attempt(0, cap + 1)]
  }

  lemma {:induction false} OpeningIsFirst(opens: seq<bool>, n: nat)
    requires n < |opens| && forall k :: 0 <= k < |opens| ==> !opens[k]
    ensures Opening(opens, n) == 0
  {
    if n == 0 {
    } else {
      OpeningIsFirst(opens, n - 1);
    }
  }

  lemma RepeatIsOneEpoch(cap: nat)
    requires 0 < cap < HALF
    ensures Epochs(EvictedRepeat(cap), OneEpoch(cap + 2))
  {
    var es, opens := EvictedRepeat(cap), OneEpoch(cap + 2);
    forall n | 0 <= n < |es| ensures InEpoch(es, opens, n) {
      OpeningIsFirst(opens, n);
      assert es[0] == Attempt(0, 0);
      if n == cap + 1 {
        assert Sent(es, 0, es[n].sn);
      } else {
        assert forall j :: 0 <= j <= n ==> es[j] == Attempt(j, j);
        assert n > 0 ==> Beyond(es, 0, n);
      }
    }
  }

  lemma {:induction false} RepeatFills(cap: nat, rs: seq<Record>, n: nat)
    requires 0 < cap < HALF && IsRun(EvictedRepeat(cap), cap, rs) && n <= cap
    ensures |rs[n].ring| == n && forall i :: 0 <= i < n ==> rs[n].ring[i].sn == i
  {
    if n == 0 {
    } else {
      RepeatFills(cap, rs, n - 1);
      assert StepAt(EvictedRepeat(cap), cap, rs, n - 1);
      assert EvictedRepeat(cap)[n - 1] == Attempt(n - 1, n - 1);
    }
  }

  /** For every capacity: with first copies in order and no restart, the copy of an evicted sequence fires
      the reset, which forgets everything the ring still held. */
  lemma EvictedRepeatWipes(cap: nat, rs: seq<Record>)
    requires 0 < cap < HALF && IsRun(EvictedRepeat(cap), cap, rs)
    ensures Epochs(EvictedRepeat(cap), OneEpoch(cap + 2))
    ensures |rs[cap + 1].ring| == cap && Resets(rs[cap + 1].ring, 0) && |rs[cap + 2].ring| == 1
  {
    var es := EvictedRepeat(cap);
    RepeatIsOneEpoch(cap);
    RepeatFills(cap, rs, cap);
    assert es[cap] == Attempt(cap, cap) && es[cap + 1] == Attempt(0, cap + 1);
    assert StepAt(es, cap, rs, cap) && StepAt(es, cap, rs, cap + 1);
    CopyShape(rs[cap], cap, cap, cap);
    CopyShape(rs[cap + 1], cap, 0, cap + 1);
    assert rs[cap + 1].ring[0].sn == 1;
  }
}
