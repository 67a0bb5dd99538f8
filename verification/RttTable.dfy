/** From the table to one record: between the claim of a record for a peer and its end, the record goes
    through exactly the run of that peer's own traffic, whatever the other peers do.  So what holds of
    runs of one record holds of every record in the table. */
module RttTable {
  import opened RttModel
  import opened RttKarn
  import opened RttInOrder
  import opened RttComplete
  import C = RttCounts
  import P = PeerTable

  /** The operation as one on the table of records; address 0 is never recorded. */
  function TableOp(op: C.Op): P.Op<Event> {
    match op
    case Sending(addr, sn, at) => if addr == 0 then P.Ignored else P.Using(addr, at, Sent(sn, at))
    case Receiving(addr, ack, at) => if addr == 0 then P.Ignored else P.Using(addr, at, Acked(ack, at))
    case Purging(addr) => P.Purging(addr)
  }

  function TableOps(ops: seq<C.Op>): (r: seq<P.Op<Event>>)
    ensures |r| == |ops|
  {
    seq(|ops|, k requires 0 <= k < |ops| => TableOp(ops[k]))
  }

  function Tables(cs: seq<Ctx>): (r: seq<seq<P.Entry<Record>>>)
    ensures |r| == |cs|
  {
    seq(|cs|, k requires 0 <= k < |cs| => cs[k].peers)
  }

  lemma ApplyIsTable(c: Ctx, op: C.Op)
    requires |c.peers| > 0 && c.cap > 0
    ensures C.Apply(c, op).peers == P.Apply(Stepper(c.cap), BLANK, c.peers, TableOp(op))
    ensures C.Apply(c, op).cap == c.cap
  {
  }

  lemma {:induction false} CapKept(cap: nat, peers: nat, ops: seq<C.Op>, cs: seq<Ctx>, n: nat)
    requires C.IsRun(cap, peers, ops, cs) && n <= |ops|
    ensures cs[n].cap == cap && |cs[n].peers| == peers
  {
    if n == 0 {
    } else {
      CapKept(cap, peers, ops, cs, n - 1);
      assert C.StepAt(ops, cs, n - 1);
      ApplyIsTable(cs[n - 1], ops[n - 1]);
    }
  }

  lemma RunIsTableRun(cap: nat, peers: nat, ops: seq<C.Op>, cs: seq<Ctx>)
    requires C.IsRun(cap, peers, ops, cs)
    ensures P.IsRun(Stepper(cap), BLANK, TableOps(ops), Tables(cs))
  {
    var os, ts, f := TableOps(ops), Tables(cs), Stepper(cap);
    forall k | 0 <= k < |os| ensures P.StepAt(f, BLANK, os, ts, k) {
      CapKept(cap, peers, ops, cs, k);
      assert C.StepAt(ops, cs, k);
      ApplyIsTable(cs[k], ops[k]);
      var m := k + 1;
      assert ts[m] == cs[m].peers;
    }
  }

  /** Operation m claims record i for a real peer, whose it still is after each one up to n. */
  ghost predicate Lives(ops: seq<C.Op>, cs: seq<Ctx>, addr: nat, i: nat, m: nat, n: nat) {
    P.Lives(TableOps(ops), Tables(cs), addr, i, m, n)
  }

  /** The peer's own events among operations m to n, in order. */
  function Traffic(ops: seq<C.Op>, addr: nat, m: nat, n: nat): seq<Event>
    requires n <= |ops|
  {
    P.Traffic(TableOps(ops), addr, m, n)
  }

  /** From claim to end a record in the table is where the run of its own peer's events takes it. */
  lemma LifeIsRun(cap: nat, peers: nat, ops: seq<C.Op>, cs: seq<Ctx>, addr: nat, i: nat, m: nat, n: nat)
    requires C.IsRun(cap, peers, ops, cs) && Lives(ops, cs, addr, i, m, n)
    ensures var es := Traffic(ops, addr, m, n);
            && |es| > 0 && IsRun(es, cap, History(es, cap))
            && i < |cs[n].peers| && cs[n].peers[i].rec == History(es, cap)[|es|].p
  {
    var es := Traffic(ops, addr, m, n);
    RunIsTableRun(cap, peers, ops, cs);
    P.LifeIsFold(Stepper(cap), BLANK, TableOps(ops), Tables(cs), addr, i, m, n);
    assert Tables(cs)[n] == cs[n].peers;
    HistoryRun(es, cap);
    HistoryFolds(es, cap, |es|);
  }

  // ---- Overflow, in the record and in the table --------------------------------------

  /** The table counts what each operation evicts. */
  lemma ApplyEvictions(c: Ctx, op: C.Op)
    requires |c.peers| > 0 && c.cap > 0
    ensures C.Apply(c, op).st.evicted >= c.st.evicted
    ensures TableOp(op).Using? ==>
              var addr := op.addr;
              var p := P.Lookup(c.peers, BLANK, addr, op.at)[P.PlaceOf(c.peers, addr)].rec;
              C.Apply(c, op).st.evicted == c.st.evicted + Evictions(p, c.cap, TableOp(op).e)
  {
  }

  /** A lookup of a peer finds its record, or a blank one. */
  lemma LookupFinds(t: seq<P.Entry<Record>>, addr: nat, now: nat, i: nat)
    requires addr != 0 && i < |t| && P.Unique(t)
    ensures t[i].addr == addr ==> P.PlaceOf(t, addr) == i && P.Lookup(t, BLANK, addr, now)[i].rec == t[i].rec
    ensures P.FindAddr(t, addr, 0) == |t| ==> P.Lookup(t, BLANK, addr, now)[P.PlaceOf(t, addr)].rec == BLANK
  {
    assert t[i].addr == addr ==> P.FindAddr(t, addr, 0) == i;
  }

  /** What the peer's own operation n finds in the table. */
  function FoundBy(cs: seq<Ctx>, addr: nat, n: nat, now: nat): Record
    requires n < |cs| && |cs[n].peers| > 0
  {
    P.Lookup(cs[n].peers, BLANK, addr, now)[P.PlaceOf(cs[n].peers, addr)].rec
  }

  /** Operation n finds the record where the earlier events of its life took it. */
  lemma OwnRecord(cap: nat, peers: nat, ops: seq<C.Op>, cs: seq<Ctx>, addr: nat, i: nat, m: nat, n: nat, now: nat)
    requires C.IsRun(cap, peers, ops, cs) && m <= n < |ops| && addr != 0
    requires if n == m then Claims(ops, cs, addr, m) else Lives(ops, cs, addr, i, m, n)
    ensures var es := Traffic(ops, addr, m, n);
            |cs[n].peers| > 0 && TracedAt(es, cap, |es|).p == FoundBy(cs, addr, n, now)
  {
    RunIsTableRun(cap, peers, ops, cs);
    CapKept(cap, peers, ops, cs, n);
    P.RunUnique(Stepper(cap), BLANK, TableOps(ops), Tables(cs), n);
    if n == m {
      LookupFinds(cs[n].peers, addr, now, 0);
      assert Traffic(ops, addr, m, m) == [];
    } else {
      var es := Traffic(ops, addr, m, n);
      LifeIsRun(cap, peers, ops, cs, addr, i, m, n);
      assert History(es, cap)[|es|] == TracedAt(es, cap, |es|);
      assert Tables(cs)[n][i].addr == addr;
      LookupFinds(cs[n].peers, addr, now, i);
    }
  }

  /** Operation m finds no record of the peer and claims one. */
  ghost predicate Claims(ops: seq<C.Op>, cs: seq<Ctx>, addr: nat, m: nat) {
    m < |ops| && m < |cs| && |cs[m].peers| > 0 && P.FindAddr(cs[m].peers, addr, 0) == |cs[m].peers|
  }

  lemma LifeShrinks(ops: seq<C.Op>, cs: seq<Ctx>, addr: nat, i: nat, m: nat, k: nat, n: nat)
    requires Lives(ops, cs, addr, i, m, n) && m < k <= n
    ensures Lives(ops, cs, addr, i, m, k)
  {
  }

  lemma LifeClaims(ops: seq<C.Op>, cs: seq<Ctx>, addr: nat, i: nat, m: nat, n: nat)
    requires Lives(ops, cs, addr, i, m, n)
    ensures Claims(ops, cs, addr, m) && addr != 0
  {
    assert Tables(cs)[m] == cs[m].peers;
  }

  ghost predicate Bounded(cap: nat, ops: seq<C.Op>, cs: seq<Ctx>, addr: nat, m: nat, n: nat)
    requires cap > 0 && m <= n <= |ops| && |cs| == |ops| + 1
  {
    var es := Traffic(ops, addr, m, n);
    TracedAt(es, cap, |es|).evicted <= cs[n].st.evicted - cs[m].st.evicted
  }

  /** A record's own run evicts no more than the table counts during its life. */
  lemma {:induction false} LifeEvictions(cap: nat, peers: nat, ops: seq<C.Op>, cs: seq<Ctx>, addr: nat, i: nat,
                                         m: nat, n: nat)
    requires C.IsRun(cap, peers, ops, cs) && Lives(ops, cs, addr, i, m, n)
    ensures Bounded(cap, ops, cs, addr, m, n)
    decreases n
  {
    LifeClaims(ops, cs, addr, i, m, n);
    if n == m + 1 {
      BoundedAtFirst(cap, ops, cs, addr, m);
    } else {
      LifeShrinks(ops, cs, addr, i, m, n - 1, n);
      LifeEvictions(cap, peers, ops, cs, addr, i, m, n - 1);
    }
    EvictionsStep(cap, peers, ops, cs, addr, i, m, n - 1, n);
  }

  lemma BoundedAtFirst(cap: nat, ops: seq<C.Op>, cs: seq<Ctx>, addr: nat, m: nat)
    requires cap > 0 && m <= |ops| && |cs| == |ops| + 1
    ensures Bounded(cap, ops, cs, addr, m, m)
  {
    assert Traffic(ops, addr, m, m) == [];
  }

  lemma EvictionsStep(cap: nat, peers: nat, ops: seq<C.Op>, cs: seq<Ctx>, addr: nat, i: nat, m: nat, k: nat, n: nat)
    requires C.IsRun(cap, peers, ops, cs) && m <= k < |ops| && n == k + 1 && addr != 0
    requires if k == m then Claims(ops, cs, addr, m) else Lives(ops, cs, addr, i, m, k)
    requires Bounded(cap, ops, cs, addr, m, k)
    ensures Bounded(cap, ops, cs, addr, m, n)
  {
    var es, op := Traffic(ops, addr, m, k), TableOp(ops[k]);
    CapKept(cap, peers, ops, cs, k);
    assert C.StepAt(ops, cs, k);
    ApplyEvictions(cs[k], ops[k]);
    if P.Concerns(op, addr) {
      OwnRecord(cap, peers, ops, cs, addr, i, m, k, op.at);
      assert Traffic(ops, addr, m, n) == es + [op.e];
      OneMore(es, cap, op.e);
    } else {
      assert Traffic(ops, addr, m, n) == es;
    }
  }

  lemma OneMore(es: seq<Event>, cap: nat, e: Event)
    requires cap > 0
    ensures var fs := es + [e]; var t := TracedAt(es, cap, |es|);
            && TracedAt(fs, cap, |es|) == t && TracedAt(fs, cap, |fs|).p == After(t.p, cap, e)
            && TracedAt(fs, cap, |fs|).evicted == t.evicted + Evictions(t.p, cap, e)
  {
    var fs := es + [e];
    HistoryPrefix(es, fs, cap, |es|);
    TracedNext(fs, cap, |es|, |fs|, TracedAt(es, cap, |es|), e);
    StepIsAfter(TracedAt(es, cap, |es|), cap, e, |es|);
  }

  // ---- Results about one record, in the table ----------------------------------------

  /** Operation n is an ack of the peer whose record i lives. */
  ghost predicate AckAt(ops: seq<C.Op>, cs: seq<Ctx>, addr: nat, i: nat, m: nat, n: nat) {
    Lives(ops, cs, addr, i, m, n) && n < |ops| && ops[n].Receiving? && ops[n].addr == addr
  }

  /** What the table made of it. */
  function TableOutcome(ops: seq<C.Op>, cs: seq<Ctx>, n: nat): AckResult
    requires n < |ops| && n < |cs| && ops[n].Receiving? && |cs[n].peers| > 0
  {
    Ack(cs[n], ops[n].addr, ops[n].ack, ops[n].at).1
  }

  /** An ack in the table is an ack in the record's run, with the same outcome: every result about runs
      of one record applies. */
  lemma TableAckIsRunAck(cap: nat, peers: nat, ops: seq<C.Op>, cs: seq<Ctx>, addr: nat, i: nat, m: nat, n: nat)
    requires C.IsRun(cap, peers, ops, cs) && AckAt(ops, cs, addr, i, m, n)
    ensures var es := Traffic(ops, addr, m, n + 1); var ts := History(es, cap);
            && |es| > 0 && es[|es| - 1] == Acked(ops[n].ack, ops[n].at)
            && IsRun(es, cap, ts) && |cs[n].peers| > 0
            && Outcome(es, ts, |es| - 1) == TableOutcome(ops, cs, n)
            && ts[|es| - 1].evicted <= cs[n].st.evicted - cs[m].st.evicted
  {
    var fs, op := Traffic(ops, addr, m, n), TableOp(ops[n]);
    LifeClaims(ops, cs, addr, i, m, n);
    OwnRecord(cap, peers, ops, cs, addr, i, m, n, op.at);
    LifeEvictions(cap, peers, ops, cs, addr, i, m, n);
    assert P.Concerns(op, addr) && Traffic(ops, addr, m, n + 1) == fs + [op.e];
    OneMore(fs, cap, op.e);
    HistoryRun(fs + [op.e], cap);
  }

  /** Event k sent what ack acks, r before it; and of the first j events no later one sent it again. */
  ghost predicate SampledFrom(es: seq<Event>, j: nat, ack: Event, r: nat, k: nat) {
    && k < j <= |es| && es[k].Sent? && es[k].sn == ack.sn && es[k].at + r == ack.at && r <= MAX_SAMPLE_MS
    && Sends(es, j, ack.sn) == Sends(es, k, ack.sn) + 1
  }

  ghost predicate SampledOnce(es: seq<Event>, j: nat, ack: Event, r: nat) {
    exists k :: SampledFrom(es, j, ack, r, k)
  }

  lemma RunSample(es: seq<Event>, cap: nat, ts: seq<Traced>, j: nat, ack: Event, r: nat)
    requires IsRun(es, cap, ts) && j < |es| && es[j] == ack && ack.Acked? && Outcome(es, ts, j) == Sample(r)
    ensures SampledOnce(es, j, ack, r)
  {
    var k := SampleSoundIff(es, cap, ts, j);
    assert SampledFrom(es, j, ack, r, k);
  }

  /** So in the table, whatever the traffic: a sample is the time since the peer was last sent that
      sequence, and that was sent exactly once since its slot was tracked. */
  lemma TableSampleSound(cap: nat, peers: nat, ops: seq<C.Op>, cs: seq<Ctx>, addr: nat, i: nat, m: nat, n: nat, r: nat)
    requires C.IsRun(cap, peers, ops, cs) && AckAt(ops, cs, addr, i, m, n) && |cs[n].peers| > 0
    requires TableOutcome(ops, cs, n) == Sample(r)
    ensures var es := Traffic(ops, addr, m, n + 1);
            |es| > 0 && SampledOnce(es, |es| - 1, Acked(ops[n].ack, ops[n].at), r)
  {
    var es := Traffic(ops, addr, m, n + 1);
    TableAckIsRunAck(cap, peers, ops, cs, addr, i, m, n);
    RunSample(es, cap, History(es, cap), |es| - 1, Acked(ops[n].ack, ops[n].at), r);
  }

  /** And every ack in the table has exactly the outcome its own peer's traffic in the record's life calls for. */
  lemma TableOutcomeIff(cap: nat, peers: nat, ops: seq<C.Op>, cs: seq<Ctx>, addr: nat, i: nat, m: nat, n: nat)
    requires C.IsRun(cap, peers, ops, cs) && AckAt(ops, cs, addr, i, m, n) && |cs[n].peers| > 0
    ensures var es := Traffic(ops, addr, m, n + 1); |es| > 0 && cap > 0
    ensures var es := Traffic(ops, addr, m, n + 1); var j, ts := |es| - 1, History(es, cap);
            && es[j] == Acked(ops[n].ack, ops[n].at)
            && (TableOutcome(ops, cs, n) == NotAdvancing <==> !Advances(es, j))
            && (Advances(es, j) ==> (TableOutcome(ops, cs, n) == Unmatched <==>
                  forall k :: 0 <= k < j ==> !Outstanding(es, cap, ts, k, j, ops[n].ack)))
            && forall k :: 0 <= k < j && Advances(es, j) && Outstanding(es, cap, ts, k, j, ops[n].ack) ==>
                 TableOutcome(ops, cs, n) == Verdict(es, k, j)
  {
    var es := Traffic(ops, addr, m, n + 1);
    TableAckIsRunAck(cap, peers, ops, cs, addr, i, m, n);
    OutcomeIff(es, cap, History(es, cap), |es| - 1);
  }

  /** So the only reliable send of a sequence in a record's life is sampled, at the time between, by the ack that
      advances to it within thirty seconds, as long as it was not pushed out or passed by a matching ack. */
  lemma TableOnlySendIsSampled(cap: nat, peers: nat, ops: seq<C.Op>, cs: seq<Ctx>, addr: nat, i: nat, m: nat, n: nat,
                               k: nat)
    requires C.IsRun(cap, peers, ops, cs) && AckAt(ops, cs, addr, i, m, n) && |cs[n].peers| > 0
    requires var es := Traffic(ops, addr, m, n + 1); var j := |es| - 1;
             && k < j && Advances(es, j) && es[k].Sent? && es[k].sn == ops[n].ack && Sends(es, j, ops[n].ack) == 1
             && forall x :: k < x < j ==> Spares(es, cap, History(es, cap), k, x, ops[n].ack)
    ensures var es := Traffic(ops, addr, m, n + 1);
            TableOutcome(ops, cs, n) == if 0 <= ops[n].at - es[k].at <= MAX_SAMPLE_MS then Sample(ops[n].at - es[k].at)
                                        else DiscardedRange
  {
    var es := Traffic(ops, addr, m, n + 1);
    TableAckIsRunAck(cap, peers, ops, cs, addr, i, m, n);
    OnlySendIsSampled(es, cap, History(es, cap), k, |es| - 1);
  }

  /** Karn soundness in the table: with the peer's first transmissions in serial order, and nothing of its
      numbered at or below the acked sequence evicted, a sample times the one and only reliable send of
      that sequence in the record's life. */
  lemma TableKarnUnlessEvicted(cap: nat, peers: nat, ops: seq<C.Op>, cs: seq<Ctx>, addr: nat, i: nat, m: nat, n: nat,
                               r: nat, ids: seq<nat>, base: nat)
    requires C.IsRun(cap, peers, ops, cs) && AckAt(ops, cs, addr, i, m, n) && |cs[n].peers| > 0
    requires TableOutcome(ops, cs, n) == Sample(r) && InOrder(Traffic(ops, addr, m, n + 1), ids, base)
    requires var es := Traffic(ops, addr, m, n + 1);
             |es| > 0 && NoneEvictedUpTo(es, ids, cap, History(es, cap), |es| - 1)
    ensures var es := Traffic(ops, addr, m, n + 1);
            |es| > 0 && Sends(es, |es| - 1, ops[n].ack) == 1
            && SampledOnce(es, |es| - 1, Acked(ops[n].ack, ops[n].at), r)
  {
    var es := Traffic(ops, addr, m, n + 1);
    TableAckIsRunAck(cap, peers, ops, cs, addr, i, m, n);
    KarnSoundUnlessEvicted(es, ids, cap, base, History(es, cap), |es| - 1);
    RunSample(es, cap, History(es, cap), |es| - 1, Acked(ops[n].ack, ops[n].at), r);
  }

  /** In particular: while the table's eviction counter has not moved since the record was
      claimed, and the peer's first transmissions went out in serial order, a sample times the one and
      only reliable send of its sequence in the record's life. */
  lemma TableKarnSound(cap: nat, peers: nat, ops: seq<C.Op>, cs: seq<Ctx>, addr: nat, i: nat, m: nat, n: nat,
                       r: nat, ids: seq<nat>, base: nat)
    requires C.IsRun(cap, peers, ops, cs) && AckAt(ops, cs, addr, i, m, n) && |cs[n].peers| > 0
    requires TableOutcome(ops, cs, n) == Sample(r)
    requires cs[n].st.evicted == cs[m].st.evicted && InOrder(Traffic(ops, addr, m, n + 1), ids, base)
    ensures var es := Traffic(ops, addr, m, n + 1);
            && |es| > 0 && Sends(es, |es| - 1, ops[n].ack) == 1
            && exists k :: 0 <= k < |es| - 1 && es[k] == Sent(ops[n].ack, ops[n].at - r)
  {
    var es := Traffic(ops, addr, m, n + 1);
    TableAckIsRunAck(cap, peers, ops, cs, addr, i, m, n);
    KarnSoundInOrder(es, ids, cap, base, History(es, cap), |es| - 1);
  }

  /** Where operation k's event is among the events of its record's life. */
  function IndexOf(ops: seq<C.Op>, addr: nat, m: nat, k: nat): int
    requires k < |ops|
  {
    |Traffic(ops, addr, m, k + 1)| - 1
  }

  /** Event x of a record's run is an ack, with outcome p. */
  ghost predicate AckIn(es: seq<Event>, cap: nat, x: int, ack: Event, p: AckResult) {
    cap > 0 && 0 <= x < |es| && es[x] == ack && ack.Acked? && Outcome(es, History(es, cap), x) == p
  }

  /** Operation n is an ack of the peer whose record i lives, with outcome p. */
  ghost predicate TableAck(ops: seq<C.Op>, cs: seq<Ctx>, addr: nat, i: nat, m: nat, n: nat, p: AckResult) {
    AckAt(ops, cs, addr, i, m, n) && n < |cs| && |cs[n].peers| > 0 && TableOutcome(ops, cs, n) == p
  }

  /** An ack has its outcome in every longer run of the record too. */
  lemma EarlierAck(cap: nat, peers: nat, ops: seq<C.Op>, cs: seq<Ctx>, addr: nat, i: nat, m: nat, k: nat, n: nat,
                   p: AckResult, x: int, es: seq<Event>, ack: Event)
    requires C.IsRun(cap, peers, ops, cs) && TableAck(ops, cs, addr, i, m, k, p) && k < n <= |ops|
    requires x == IndexOf(ops, addr, m, k) && es == Traffic(ops, addr, m, n) && ack == Acked(ops[k].ack, ops[k].at)
    ensures AckIn(es, cap, x, ack, p)
  {
    var fs := Traffic(ops, addr, m, k + 1);
    TableAckIsRunAck(cap, peers, ops, cs, addr, i, m, k);
    P.TrafficGrows(TableOps(ops), addr, m, k + 1, n);
    HistoryPrefix(fs, es, cap, x);
    assert es[x] == fs[x];
    assert History(es, cap)[x] == TracedAt(es, cap, x) == TracedAt(fs, cap, x) == History(fs, cap)[x];
  }

  lemma IndexGrows(ops: seq<C.Op>, addr: nat, m: nat, k: nat, n: nat)
    requires m <= k < n < |ops| && P.Concerns(TableOp(ops[n]), addr)
    ensures IndexOf(ops, addr, m, k) < IndexOf(ops, addr, m, n)
  {
    P.TrafficGrows(TableOps(ops), addr, m, k + 1, n);
    assert Traffic(ops, addr, m, n + 1) == Traffic(ops, addr, m, n) + [TableOp(ops[n]).e];
  }

  /** Event a sent what ack acks, and any sample p is the time between the two. */
  ghost predicate TimedFrom(es: seq<Event>, ack: Event, p: AckResult, a: nat) {
    a < |es| && es[a].Sent? && es[a].sn == ack.sn && (p.Sample? ==> es[a].at + p.rtt == ack.at)
  }

  /** Two different events sent what the two acks ack. */
  ghost predicate TwoSends(es: seq<Event>, ack: Event, p: AckResult, acl: Event, q: AckResult) {
    exists a, b :: a < b && TimedFrom(es, ack, p, a) && TimedFrom(es, acl, q, b)
  }

  lemma RunMatches(es: seq<Event>, cap: nat, x: int, y: int, ack: Event, acl: Event, p: AckResult, q: AckResult)
    requires AckIn(es, cap, x, ack, p) && AckIn(es, cap, y, acl, q) && x < y
    requires p != NotAdvancing && p != Unmatched && q != NotAdvancing && q != Unmatched
    ensures TwoSends(es, ack, p, acl, q)
  {
    var ts := History(es, cap);
    HistoryRun(es, cap);
    assert StepAt(es, cap, ts, x) && StepAt(es, cap, ts, y);
    MatchesDiffer(es, cap, ts, x, y);
    OriginSent(es, cap, ts, x);
    OriginSent(es, cap, ts, y);
    assert TimedFrom(es, ack, p, Origin(es, ts, x)) && TimedFrom(es, acl, q, Origin(es, ts, y));
  }

  lemma TableIndexGrows(ops: seq<C.Op>, cs: seq<Ctx>, addr: nat, i: nat, m: nat, k: nat, n: nat,
                        p: AckResult, q: AckResult, x: int, y: int)
    requires k < n && TableAck(ops, cs, addr, i, m, k, p) && TableAck(ops, cs, addr, i, m, n, q)
    requires x == IndexOf(ops, addr, m, k) && y == IndexOf(ops, addr, m, n)
    ensures x < y
  {
    IndexGrows(ops, addr, m, k, n);
  }

  /** Within one record's life two acks that match use up two different sends, in the order they were
      tracked: no tracked send is measured twice. */
  lemma TableMatchesDiffer(cap: nat, peers: nat, ops: seq<C.Op>, cs: seq<Ctx>, addr: nat, i: nat,
                           m: nat, k: nat, n: nat, p: AckResult, q: AckResult)
    requires C.IsRun(cap, peers, ops, cs) && k < n && p != NotAdvancing && p != Unmatched
    requires TableAck(ops, cs, addr, i, m, k, p) && TableAck(ops, cs, addr, i, m, n, q)
    requires q != NotAdvancing && q != Unmatched
    ensures TwoSends(Traffic(ops, addr, m, n + 1),
                     Acked(ops[k].ack, ops[k].at), p, Acked(ops[n].ack, ops[n].at), q)
  {
    var es, ack, acl := Traffic(ops, addr, m, n + 1), Acked(ops[k].ack, ops[k].at), Acked(ops[n].ack, ops[n].at);
    var x, y := IndexOf(ops, addr, m, k), IndexOf(ops, addr, m, n);
    EarlierAck(cap, peers, ops, cs, addr, i, m, k, n + 1, p, x, es, ack);
    EarlierAck(cap, peers, ops, cs, addr, i, m, n, n + 1, q, y, es, acl);
    TableIndexGrows(ops, cs, addr, i, m, k, n, p, q, x, y);
    RunMatches(es, cap, x, y, ack, acl, p, q);
  }
}
