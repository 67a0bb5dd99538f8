/** Runs of one suppressor record, from the moment it is blank. */
module DampenRun {
  import opened Serial
  import opened DampenModel

  ghost predicate StepAt(es: seq<Event>, cap: nat, rs: seq<Record>, i: nat)
    requires cap > 0 && i < |es| && |rs| == |es| + 1
  {
    rs[i + 1] == After(rs[i], cap, es[i])
  }

  /** rs are the states of a record through the events of its lifetime. */
  ghost predicate IsRun(es: seq<Event>, cap: nat, rs: seq<Record>) {
    && cap > 0 && |rs| == |es| + 1 && rs[0] == BLANK
    && forall i :: 0 <= i < |es| ==> StepAt(es, cap, rs, i)
  }

  function Stepper(cap: nat): (Record, Event) -> Record
    requires cap > 0
  {
    (p: Record, e: Event) => After(p, cap, e)
  }

  /** Every sequence of events has its run. */
  function States(es: seq<Event>, cap: nat): (rs: seq<Record>)
    requires cap > 0
    ensures |rs| == |es| + 1
  {
    seq(|es| + 1, k requires 0 <= k <= |es| => PeerTable.Fold(Stepper(cap), BLANK, es, k))
  }

  lemma StatesRun(es: seq<Event>, cap: nat)
    requires cap > 0
    ensures IsRun(es, cap, States(es, cap))
  {
    var rs := States(es, cap);
    forall i | 0 <= i < |es| ensures StepAt(es, cap, rs, i) {
      var k := i + 1;
      assert rs[k] == Stepper(cap)(PeerTable.Fold(Stepper(cap), BLANK, es, i), es[i]);
    }
  }

  /** No two slots hold the same sequence. */
  ghost predicate Distinct(ring: seq<Slot>) {
    forall i, j :: 0 <= i < j < |ring| ==> ring[i].sn != ring[j].sn
  }

  lemma RecordedDistinct(ring: seq<Slot>, cap: nat, rtt: u32, sn: u32, now: nat)
    requires cap > 0 && Distinct(ring)
    ensures Distinct(Recorded(ring, cap, rtt, sn, now))
  {
  }

  /** What one copy does to the ring: it keeps it, or overwrites the slot of its sequence, or appends,
      over the head when full, or starts it afresh. */
  lemma CopyShape(p: Record, cap: nat, sn: u32, now: nat)
    requires cap > 0
    ensures var q := OnCopy(p, cap, sn, now).0.ring; var f := Find(p.ring, sn, 0);
            if Resets(p.ring, sn) then |q| == 1 && q[0].sn == sn
            else if f < |p.ring| then |q| == |p.ring| && forall j :: 0 <= j < |q| ==> q[j].sn == p.ring[j].sn
            else
              var off := if |p.ring| >= cap then 1 else 0;
              && off <= |p.ring| && |q| == |p.ring| - off + 1 && q[|q| - 1].sn == sn
              && forall j :: 0 <= j < |q| - 1 ==> q[j].sn == p.ring[j + off].sn
  {
  }

  /** Only copies move the ring. */
  lemma OthersKeepRing(p: Record, cap: nat, e: Event)
    requires cap > 0 && !e.Attempt?
    ensures After(p, cap, e).ring == p.ring
  {
  }

  lemma {:induction false} RunDistinct(es: seq<Event>, cap: nat, rs: seq<Record>, n: nat)
    requires IsRun(es, cap, rs) && n <= |es|
    ensures Distinct(rs[n].ring) && |rs[n].ring| <= cap
  {
    if n == 0 {
    } else {
      RunDistinct(es, cap, rs, n - 1);
      assert StepAt(es, cap, rs, n - 1);
      if es[n - 1].Attempt? {
        var p := rs[n - 1];
        RecordedDistinct(AfterReset(p.ring, es[n - 1].sn), cap, p.rtt, es[n - 1].sn, es[n - 1].at);
      } else {
        OthersKeepRing(rs[n - 1], cap, es[n - 1]);
      }
    }
  }
}
