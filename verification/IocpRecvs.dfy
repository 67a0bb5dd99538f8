/** The table of outstanding receives over every run: a completion is ruled by what lies where its
    receive was last posted to land. */
module IocpRecvs {
  import opened IocpModel
  import opened IocpConservation

  /** recvs with some entries freed, every place as it was. */
  ghost predicate Frees(recvs: seq<Recv>, after: seq<Recv>) {
    && |after| == |recvs|
    && forall i :: 0 <= i < |recvs| ==> after[i] == recvs[i] || after[i] == recvs[i].(ov := 0)
  }

  lemma RoundFrees(h: Hook, t: Turn)
    requires |h.rx.tbl| > 0 && TurnOk(t)
    ensures Frees(h.recvs, Round(h, t).h.recvs)
  {
    var g := h.(rx := PickReady(h.rx, h.held, t.now, 0, |h.held|).rx);
    RuleFrees(g, t);
  }

  lemma RuleFrees(h: Hook, t: Turn)
    requires |h.rx.tbl| > 0 && TurnOk(t)
    ensures Rule(h, t).h.recvs == Untrack(h.recvs, t.comp.ov)
  {
  }

  lemma FreesTwice(a: seq<Recv>, b: seq<Recv>, c: seq<Recv>)
    requires Frees(a, b) && Frees(b, c)
    ensures Frees(a, c)
  {
  }

  lemma {:induction false} DequeueFrees(h: Hook, turns: seq<Turn>, i: nat, entered: nat, budget: nat, last: Completion)
    requires |h.rx.tbl| > 0 && TurnsOk(turns) && i + Room(h) < |turns|
    ensures Frees(h.recvs, DequeueFrom(h, turns, i, entered, budget, last).h.recvs)
    decreases Room(h)
  {
    RoundFrees(h, turns[i]);
    var s := Round(h, turns[i]);
    if s.Return? {
    } else {
      DeferTakesRoom(h, turns[i]);
      if !(turns[i].end - entered > budget * WATCHDOG) {
        DequeueFrees(s.h, turns, i + 1, entered, budget, last);
        FreesTwice(h.recvs, s.h.recvs, DequeueFrom(h, turns, i, entered, budget, last).h.recvs);
      }
    }
  }

  /** Operation k is the last of the first n that posted this receive, and it was to land there. */
  ghost predicate Latest(ops: seq<Op>, n: nat, r: Recv, k: nat) {
    && k < n <= |ops| && ops[k] == Posting(true, r.ov, r.place)
    && forall j :: k < j < n ==> !Posts(ops[j], r.ov)
  }

  predicate Posts(op: Op, ov: nat) { op.Posting? && op.ready && op.ov == ov }

  ghost predicate EntryTrue(ops: seq<Op>, n: nat, r: Recv) {
    r.ov == 0 || exists k :: Latest(ops, n, r, k)
  }

  /** Every entry is where its receive was last posted to land, and no receive has two. */
  ghost predicate RecvsTrue(ops: seq<Op>, n: nat, recvs: seq<Recv>) {
    && (forall i :: 0 <= i < |recvs| ==> EntryTrue(ops, n, recvs[i]))
    && (forall i, j :: 0 <= i < j < |recvs| && recvs[i].ov == recvs[j].ov ==> recvs[i].ov == 0)
  }

  lemma EntryStays(ops: seq<Op>, n: nat, r: Recv)
    requires n < |ops| && EntryTrue(ops, n, r) && (r.ov != 0 ==> !Posts(ops[n], r.ov))
    ensures EntryTrue(ops, n + 1, r)
  {
    if r.ov != 0 {
      var k :| Latest(ops, n, r, k);
      assert Latest(ops, n + 1, r, k);
    }
  }

  lemma FreesKeep(ops: seq<Op>, n: nat, recvs: seq<Recv>, after: seq<Recv>)
    requires n < |ops| && RecvsTrue(ops, n, recvs) && Frees(recvs, after) && !(ops[n].Posting? && ops[n].ready)
    ensures RecvsTrue(ops, n + 1, after)
  {
    var m := n + 1;
    forall i | 0 <= i < |after| ensures EntryTrue(ops, m, after[i]) {
      if after[i].ov != 0 {
        EntryStays(ops, n, recvs[i]);
      }
    }
  }

  lemma TrackKeeps(ops: seq<Op>, n: nat, recvs: seq<Recv>, ov: nat, place: Place)
    requires n < |ops| && RecvsTrue(ops, n, recvs) && ops[n] == Posting(true, ov, place) && ov != 0
    ensures RecvsTrue(ops, n + 1, Tracked(recvs, ov, place))
  {
    var after, m := Tracked(recvs, ov, place), n + 1;
    assert Latest(ops, m, Recv(ov, place), n);
    forall i | 0 <= i < |after| ensures EntryTrue(ops, m, after[i]) {
      if after[i] != Recv(ov, place) {
        EntryStays(ops, n, recvs[i]);
      }
    }
  }

  /** In every run from an empty table, an entry says where its receive was last posted to land: so the
      packet a completion is ruled by is read from there. */
  lemma {:induction false} LandsWherePosted(ops: seq<Op>, hs: seq<Hook>, n: nat)
    requires IsRun(ops, hs) && n <= |ops| && forall r :: r in hs[0].recvs ==> r.ov == 0
    ensures RecvsTrue(ops, n, hs[n].recvs)
  {
    if n == 0 {
    } else {
      LandsWherePosted(ops, hs, n - 1);
      assert StepAt(ops, hs, n - 1);
      StepKeepsRecvs(ops, hs[n - 1], n - 1);
    }
  }

  lemma StepKeepsRecvs(ops: seq<Op>, h: Hook, n: nat)
    requires n < |ops| && OpOk(h, ops[n]) && RecvsTrue(ops, n, h.recvs)
    ensures RecvsTrue(ops, n + 1, Step(h, ops[n]).recvs)
  {
    match ops[n]
    case Posting(ready, ov, place) =>
      if ready && ov != 0 {
        TrackKeeps(ops, n, h.recvs, ov, place);
      } else if ready {
        ZeroKeeps(ops, n, h.recvs);
      } else {
        FreesKeep(ops, n, h.recvs, h.recvs);
      }
    case Asking(ready, turns, entered, timeout, last) =>
      if ready && !h.disabled {
        DequeueFrees(h, turns, 0, entered, Budget(h.rx.cfg, timeout), last);
      }
      FreesKeep(ops, n, h.recvs, Step(h, ops[n]).recvs);
  }

  /** A receive without an overlapped structure is not tracked. */
  lemma ZeroKeeps(ops: seq<Op>, n: nat, recvs: seq<Recv>)
    requires n < |ops| && RecvsTrue(ops, n, recvs) && ops[n].Posting? && ops[n].ov == 0
    ensures RecvsTrue(ops, n + 1, recvs)
  {
    var m := n + 1;
    forall i | 0 <= i < |recvs| ensures EntryTrue(ops, m, recvs[i]) {
      EntryStays(ops, n, recvs[i]);
    }
  }
}
