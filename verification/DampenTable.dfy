/** Runs of the suppressor's whole table, and the life of a record in it. */
module DampenTable {
  import opened Serial
  import opened DampenModel
  import opened DampenRun
  import P = PeerTable

  datatype Op =
    | Admitting(addr: nat, sn: u32, len: nat, at: nat)
    | Acking(addr: nat, sn: u32, at: nat)
    | Setting(addr: nat, rtt: u32)
    | Purging(addr: nat)

  function Apply(c: Ctx, op: Op): Ctx
    requires |c.peers| > 0 && c.cap > 0
  {
    match op
    case Admitting(addr, sn, len, at) => Admit(c, addr, sn, len, at).0
    case Acking(addr, sn, at) => ObserveAck(c, addr, sn, at)
    case Setting(addr, rtt) => SetRtt(c, addr, rtt)
    case Purging(addr) => Purge(c, addr)
  }

  function Start(cap: nat, peers: nat): Ctx {
    Ctx(cap, seq(peers, _ => P.Entry(0, 0, BLANK)), NO_STATS)
  }

  ghost predicate CtxStep(ops: seq<Op>, cs: seq<Ctx>, i: nat)
    requires i < |ops| && |cs| == |ops| + 1
  {
    |cs[i].peers| > 0 && cs[i].cap > 0 && cs[i + 1] == Apply(cs[i], ops[i])
  }

  ghost predicate IsCtxRun(cap: nat, peers: nat, ops: seq<Op>, cs: seq<Ctx>) {
    && cap > 0 && peers > 0 && |cs| == |ops| + 1 && cs[0] == Start(cap, peers)
    && forall i :: 0 <= i < |ops| ==> CtxStep(ops, cs, i)
  }

  /** The operation as one on the table of records. */
  function TableOp(op: Op): P.Op<Event> {
    match op
    case Admitting(addr, sn, len, at) => P.Using(addr, at, Attempt(sn, at))
    case Acking(addr, sn, at) => P.Noting(addr, Acked(sn, at))
    case Setting(addr, rtt) => if rtt == 0 then P.Ignored else P.Noting(addr, Measured(rtt))
    case Purging(addr) => P.Purging(addr)
  }

  function TableOps(ops: seq<Op>): (r: seq<P.Op<Event>>)
    ensures |r| == |ops|
  {
    seq(|ops|, k requires 0 <= k < |ops| => TableOp(ops[k]))
  }

  function Tables(cs: seq<Ctx>): (r: seq<seq<P.Entry<Record>>>)
    ensures |r| == |cs|
  {
    seq(|cs|, k requires 0 <= k < |cs| => cs[k].peers)
  }

  lemma ApplyIsTable(c: Ctx, op: Op)
    requires |c.peers| > 0 && c.cap > 0
    ensures Apply(c, op).peers == P.Apply(Stepper(c.cap), BLANK, c.peers, TableOp(op)) && Apply(c, op).cap == c.cap
  {
  }

  lemma {:induction false} CapKept(cap: nat, peers: nat, ops: seq<Op>, cs: seq<Ctx>, n: nat)
    requires IsCtxRun(cap, peers, ops, cs) && n <= |ops|
    ensures cs[n].cap == cap && |cs[n].peers| == peers
  {
    if n == 0 {
    } else {
      CapKept(cap, peers, ops, cs, n - 1);
      assert CtxStep(ops, cs, n - 1);
      ApplyIsTable(cs[n - 1], ops[n - 1]);
    }
  }

  lemma RunIsTableRun(cap: nat, peers: nat, ops: seq<Op>, cs: seq<Ctx>)
    requires IsCtxRun(cap, peers, ops, cs)
    ensures P.IsRun(Stepper(cap), BLANK, TableOps(ops), Tables(cs))
  {
    var os, ts, f := TableOps(ops), Tables(cs), Stepper(cap);
    forall k | 0 <= k < |os| ensures P.StepAt(f, BLANK, os, ts, k) {
      CapKept(cap, peers, ops, cs, k);
      assert CtxStep(ops, cs, k);
      ApplyIsTable(cs[k], ops[k]);
      var m := k + 1;
      assert ts[m] == cs[m].peers;
    }
  }

  /** Operation m claims record i for a real peer, whose it still is after each one up to n. */
  ghost predicate Lives(ops: seq<Op>, cs: seq<Ctx>, addr: nat, i: nat, m: nat, n: nat) {
    P.Lives(TableOps(ops), Tables(cs), addr, i, m, n)
  }

  function Traffic(ops: seq<Op>, addr: nat, m: nat, n: nat): seq<Event>
    requires n <= |ops|
  {
    P.Traffic(TableOps(ops), addr, m, n)
  }

  /** From claim to end a record in the table is where the run of its own peer's events takes it. */
  lemma LifeIsRun(cap: nat, peers: nat, ops: seq<Op>, cs: seq<Ctx>, addr: nat, i: nat, m: nat, n: nat)
    requires IsCtxRun(cap, peers, ops, cs) && Lives(ops, cs, addr, i, m, n)
    ensures var es := Traffic(ops, addr, m, n);
            && |es| > 0 && IsRun(es, cap, States(es, cap))
            && i < |cs[n].peers| && cs[n].peers[i].rec == States(es, cap)[|es|]
  {
    RunIsTableRun(cap, peers, ops, cs);
    P.LifeIsFold(Stepper(cap), BLANK, TableOps(ops), Tables(cs), addr, i, m, n);
    assert Tables(cs)[n] == cs[n].peers;
    StatesRun(Traffic(ops, addr, m, n), cap);
  }
}
