/** Conservation of payload through the receive hook, over whole runs. */
module HookConservation {
  import opened Serial
  import opened ReorderModel
  import opened ReorderRings
  import opened HookModel
  import ReorderRuns

  /** How many copies of x the first n entries hold. */
  function TableTo(tbl: seq<Peer>, n: nat, x: Dgram): nat
    requires n <= |tbl|
  {
    if n == 0 then 0 else TableTo(tbl, n - 1, x) + Copies(tbl[n - 1].slots, x)
  }

  function InTable(c: Ctx, x: Dgram): nat { TableTo(c.tbl, |c.tbl|, x) }

  function ReadN(r: Read, x: Dgram): nat { if Sequenced(r) then One(r.pkt, x) else 0 }

  /** How many sequenced copies of x receive calls i to j took. */
  function TakenN(input: seq<Read>, i: nat, j: nat, x: Dgram): nat
    requires i <= j <= |input|
    decreases j - i
  {
    if i == j then 0 else ReadN(input[i], x) + TakenN(input, i + 1, j, x)
  }

  /** 1 if an outcome hands the sequenced datagram x to the game. */
  function HandedN(o: Outcome, x: Dgram): nat {
    match o
    case WouldBlock => 0
    case Bypassed(_) => 0
    case _ => One(o.pkt, x)
  }

  /** From c to d, the table's copies of x plus those taken in are its copies after, those handed
      over and those destroyed; and the loss counters moved by exactly what was destroyed. */
  ghost predicate Balanced(c: Ctx, taken: nat, d: Ctx, handed: nat, l: Lost, x: Dgram) {
    && InTable(c, x) + taken == InTable(d, x) + handed + N(l.purged, x) + N(l.reclaimed, x)
    && d.stats.purged == c.stats.purged + |l.purged|
    && d.stats.reclaim == c.stats.reclaim + |l.reclaimed|
  }

  lemma BalancedTwice(c: Ctx, t1: nat, d: Ctx, h1: nat, l1: Lost, t2: nat, e: Ctx, h2: nat, l2: Lost, x: Dgram)
    requires Balanced(c, t1, d, h1, l1, x) && Balanced(d, t2, e, h2, l2, x)
    ensures Balanced(c, t1 + t2, e, h1 + h2, AddLost(l1, l2), x)
  {
    NPlus(l1.purged, l2.purged, x);
    NPlus(l1.reclaimed, l2.reclaimed, x);
  }

  lemma {:induction false} TableUpdate(tbl: seq<Peer>, i: nat, p: Peer, n: nat, x: Dgram)
    requires i < |tbl| && n <= |tbl|
    ensures TableTo(tbl[i := p], n, x)
            == TableTo(tbl, n, x) + (if i < n then Copies(p.slots, x) as int - Copies(tbl[i].slots, x) else 0)
  {
    if n == 0 {
    } else {
      TableUpdate(tbl, i, p, n - 1, x);
    }
  }

  /** A lookup moves nothing except what reclaiming an idle entry destroys. */
  lemma LookupConserves(c: Ctx, ep: Endpoint, now: nat, x: Dgram)
    requires CtxInv(c) && KeyOf(ep) != 0
    ensures Balanced(c, 0, GetPeer(c, ep, now).0, 0, Lost([], ReclaimedBy(c, ep, now)), x)
  {
    var k := KeyOf(ep);
    FreshKeeps(c.cfg, k, now);
    var at, free, idle := FindKey(c.tbl, k, 0), FindKey(c.tbl, 0, 0), LeastActive(c.tbl, 1, 0);
    if at < |c.tbl| {
      TableUpdate(c.tbl, at, c.tbl[at].(lastActivity := now), |c.tbl|, x);
    } else if free < |c.tbl| {
      Entry(c, free);
      EmptyRing(c.tbl[free].slots, |c.tbl[free].slots|, x);
      TableUpdate(c.tbl, free, FreshPeer(c.cfg, k, now), |c.tbl|, x);
    } else if now - c.tbl[idle].lastActivity >= PEER_IDLE_MS {
      Entry(c, idle);
      HeldCopies(c.tbl[idle].slots, |c.tbl[idle].slots|, x);
      TableUpdate(c.tbl, idle, FreshPeer(c.cfg, k, now), |c.tbl|, x);
    }
  }

  /** Copies of x that an insertion added to the ring, less those it displaced. */
  function InsertedN(r: InsertResult, d: Dgram, x: Dgram): int {
    match r
    case Buffered => One(d, x)
    case EvictedOldest(s) => One(d, x) as int - One(s.pkt, x)
    case _ => 0
  }

  /** Buffering adds the datagram whole; a displacement also takes the displaced one out. */
  lemma InsertConserves(p: Peer, sn: u32, ts: nat, d: Dgram, x: Dgram)
    requires PeerInv(p) && |p.slots| > 0 && |d.data| <= MAX_PKT_BYTES
    ensures var (q, r) := Insert(p, sn, ts, d);
            Copies(q.slots, x) == Copies(p.slots, x) + InsertedN(r, d, x)
  {
    var (q, r) := Insert(p, sn, ts, d);
    if r.Buffered? || r.EvictedOldest? {
      CountBounds(p.slots);
      var at := if r.Buffered? then FindFree(p.slots, 0) else OldestSlot(p.slots, 1, 0);
      var s := Slot(true, ts, sn, d);
      assert d.(data := Clip(d.data)) == d;
      UpdateCopies(p.slots, at, s, |p.slots|, x);
      assert q.slots == p.slots[at := s];
    }
  }

  lemma SettleConserves(c: Ctx, i: nat, q: Peer, r: InsertResult, d: Dgram, now: nat, x: Dgram)
    requires i < |c.tbl|
    requires Copies(q.slots, x) == Copies(c.tbl[i].slots, x) + InsertedN(r, d, x)
    ensures var a := Settle(c, i, q, r, d, now);
            Balanced(c, One(d, x), a.c, HandedN(a.out, x), a.lost, x)
  {
    NOne(d, x);
    if r.EvictedOldest? {
      var w := NoteDelivery(q, r.out.sn, now);
      assert c.tbl[i := q][i := w] == c.tbl[i := w];
      PurgeSplits(q.slots, Advance(q, r.out.sn).last, |q.slots|, x);
      TableUpdate(c.tbl, i, w, |c.tbl|, x);
    } else {
      TableUpdate(c.tbl, i, q, |c.tbl|, x);
    }
  }

  lemma ArriveConserves(c: Ctx, d: Dgram, now: nat, x: Dgram)
    requires CtxInv(c) && KeyOf(d.from) != 0 && SEQ_MIN_PAY <= |d.data| <= MAX_PKT_BYTES
    ensures var a := Arrive(c, d, now);
            Balanced(c, One(d, x), a.c, HandedN(a.out, x), a.lost, x)
  {
    LookupConserves(c, d.from, now, x);
    LookupKeeps(c, d.from, now);
    var (c1, at) := GetPeer(c, d.from, now);
    if at.Found? {
      Entry(c1, at.at);
      var p, sn := Adapt(c1.cfg, c1.tbl[at.at], SeqOf(d.data), now), SeqOf(d.data);
      InsertConserves(p, sn, now, d, x);
      var (q, r) := Insert(p, sn, now, d);
      SettleConserves(c1, at.at, q, r, d, now, x);
      var a := Settle(c1, at.at, q, r, d, now);
      BalancedTwice(c, 0, c1, 0, Lost([], ReclaimedBy(c, d.from, now)),
                    One(d, x), a.c, HandedN(a.out, x), a.lost, x);
    } else {
      assert c1 == c;
    }
  }

  lemma OnReadConserves(c: Ctx, r: Read, x: Dgram)
    requires CtxInv(c) && ReadOk(r)
    ensures var s := OnRead(c, r);
            && (s.GoOn? ==> Balanced(c, ReadN(r, x), s.c, 0, s.lost, x))
            && (s.Done? ==> Balanced(c, ReadN(r, x), s.c, HandedN(s.out, x), s.lost, x))
  {
    if Sequenced(r) {
      ArriveConserves(c, r.pkt, r.at, x);
    }
  }

  lemma {:induction false} DrainConserves(c: Ctx, input: seq<Read>, at: nat, cap: nat, x: Dgram)
    requires CtxInv(c) && InputOk(input) && at <= |input|
    ensures var d := Drain(c, input, at, cap);
            Balanced(c, TakenN(input, at, d.used, x), d.c, HandedN(d.out, x), d.lost, x)
    decreases cap
  {
    if cap == 0 || Saturated(c) || at == |input| {
    } else {
      OnReadKeeps(c, input[at]);
      if OnRead(c, input[at]).GoOn? {
        DrainConserves(OnRead(c, input[at]).c, input, at + 1, cap - 1, x);
        DrainOn(c, input, at, cap, x);
      } else {
        DrainDone(c, input, at, cap, x);
      }
    }
  }

  lemma DrainDone(c: Ctx, input: seq<Read>, at: nat, cap: nat, x: Dgram)
    requires CtxInv(c) && InputOk(input) && at < |input| && cap != 0 && !Saturated(c)
    requires OnRead(c, input[at]).Done?
    ensures var d := Drain(c, input, at, cap);
            Balanced(c, TakenN(input, at, d.used, x), d.c, HandedN(d.out, x), d.lost, x)
  {
    OnReadConserves(c, input[at], x);
    assert TakenN(input, at + 1, at + 1, x) == 0;
  }

  lemma DrainOn(c: Ctx, input: seq<Read>, at: nat, cap: nat, x: Dgram)
    requires CtxInv(c) && InputOk(input) && at < |input| && cap != 0 && !Saturated(c)
    requires OnRead(c, input[at]).GoOn? && CtxInv(OnRead(c, input[at]).c)
    requires var rest := Drain(OnRead(c, input[at]).c, input, at + 1, cap - 1);
             Balanced(OnRead(c, input[at]).c, TakenN(input, at + 1, rest.used, x),
                      rest.c, HandedN(rest.out, x), rest.lost, x)
    ensures var d := Drain(c, input, at, cap);
            Balanced(c, TakenN(input, at, d.used, x), d.c, HandedN(d.out, x), d.lost, x)
  {
    OnReadConserves(c, input[at], x);
    var s := OnRead(c, input[at]);
    GoOnConserves(c, input, at, s, Drain(s.c, input, at + 1, cap - 1), x);
  }

  /** A step that drains on, followed by the rest of the drain. */
  lemma GoOnConserves(c: Ctx, input: seq<Read>, at: nat, s: ReadStep, rest: Drained, x: Dgram)
    requires at < rest.used <= |input| && s.GoOn?
    requires Balanced(c, ReadN(input[at], x), s.c, 0, s.lost, x)
    requires Balanced(s.c, TakenN(input, at + 1, rest.used, x), rest.c, HandedN(rest.out, x), rest.lost, x)
    ensures Balanced(c, TakenN(input, at, rest.used, x), rest.c, HandedN(rest.out, x), AddLost(s.lost, rest.lost), x)
  {
    BalancedTwice(c, ReadN(input[at], x), s.c, 0, s.lost,
                  TakenN(input, at + 1, rest.used, x), rest.c, HandedN(rest.out, x), rest.lost, x);
  }

  lemma ReleaseConserves(c: Ctx, r: Ready, now: nat, x: Dgram)
    requires CtxInv(c) && r.ReadyAt? && r.peer < |c.tbl|
    requires Pick(c.cfg, c.tbl[r.peer], now) == Choose(r.slot, r.kind)
    ensures var p := c.tbl[r.peer];
            Balanced(c, 0, TakeAt(c, r, now), One(p.slots[r.slot].pkt, x), Lost(TakeLoss(p, r.slot), []), x)
  {
    var p := c.tbl[r.peer];
    Entry(c, r.peer);
    PickHeld(c.cfg, p, now);
    var f, last := FreeSlot(p, r.slot), Advance(p, p.slots[r.slot].sn).last;
    UpdateCopies(p.slots, r.slot, p.slots[r.slot].(used := false), |p.slots|, x);
    PurgeSplits(f.slots, last, |f.slots|, x);
    TableUpdate(c.tbl, r.peer, Take(c.cfg, p, r.slot, now), |c.tbl|, x);
  }

  /** One call: what was held and what it took from the kernel is what it handed over,
      what it still holds, and what its counters record as destroyed. */
  lemma CallConserves(c: Ctx, input: seq<Read>, cap: nat, now: nat, x: Dgram)
    requires CtxInv(c) && InputOk(input)
    ensures var d := Call(c, input, cap, now);
            Balanced(c, TakenN(input, 0, d.used, x), d.c, HandedN(d.out, x), d.lost, x)
  {
    DrainConserves(c, input, 0, cap, x);
    DrainKeeps(c, input, 0, cap);
    var d := Drain(c, input, 0, cap);
    var r := ReadyFrom(d.c, now, 0);
    if d.out == WouldBlock && r.ReadyAt? {
      ReadyIsHeld(d.c, now, 0);
      ReleaseConserves(d.c, r, now, x);
      var p := d.c.tbl[r.peer];
      BalancedTwice(c, TakenN(input, 0, d.used, x), d.c, 0, d.lost,
                    0, TakeAt(d.c, r, now), One(p.slots[r.slot].pkt, x),
                    Lost(TakeLoss(p, r.slot), []), x);
    }
  }

  // ---- Whole runs ---------------------------------------------------------------

  /** One invocation by the game: the kernel's answers, and the clock at the release scan. */
  datatype Invocation = Invocation(input: seq<Read>, now: nat)

  ghost predicate CallsOk(calls: seq<Invocation>) {
    forall k :: 0 <= k < |calls| ==> InputOk(calls[k].input)
  }

  /** The context call number i starts from. */
  function Before(c: Ctx, ds: seq<Drained>, i: nat): Ctx
    requires i <= |ds|
  {
    if i == 0 then c else ds[i - 1].c
  }

  ghost predicate CallAt(c: Ctx, calls: seq<Invocation>, cap: nat, ds: seq<Drained>, i: nat)
    requires i < |calls| && i < |ds|
  {
    && CtxInv(Before(c, ds, i)) && InputOk(calls[i].input)
    && ds[i] == Call(Before(c, ds, i), calls[i].input, cap, calls[i].now)
  }

  /** ds are the results of the calls, made one after the other from c. */
  ghost predicate IsRun(c: Ctx, calls: seq<Invocation>, cap: nat, ds: seq<Drained>) {
    && |ds| == |calls|
    && (forall i :: 0 <= i < |ds| ==> ds[i].used <= |calls[i].input|)
    && (forall i :: 0 <= i < |ds| ==> CallAt(c, calls, cap, ds, i))
  }

  /** Every sequence of invocations has its run. */
  lemma {:induction false} RunExists(c: Ctx, calls: seq<Invocation>, cap: nat, n: nat) returns (ds: seq<Drained>)
    requires CtxInv(c) && CallsOk(calls) && n <= |calls|
    ensures IsRun(c, calls[..n], cap, ds) && CtxInv(Before(c, ds, n))
  {
    if n == 0 {
      ds := [];
    } else {
      var front := RunExists(c, calls, cap, n - 1);
      var b, k := Before(c, front, n - 1), calls[n - 1];
      CallKeeps(b, k.input, cap, k.now);
      ds := front + [Call(b, k.input, cap, k.now)];
      forall i | 0 <= i < n ensures CallAt(c, calls[..n], cap, ds, i) {
        if i < n - 1 {
          SameCall(c, calls[..n - 1], calls[..n], cap, front, ds, i);
        }
      }
    }
  }

  lemma SameCall(c: Ctx, calls: seq<Invocation>, more: seq<Invocation>, cap: nat,
                 ds: seq<Drained>, es: seq<Drained>, i: nat)
    requires calls <= more && ds <= es && IsRun(c, calls, cap, ds) && i < |calls|
    ensures CallAt(c, more, cap, es, i)
  {
    assert CallAt(c, calls, cap, ds, i);
    assert Before(c, es, i) == Before(c, ds, i);
  }

  /** Copies of x the first n calls took from the kernel, and copies they handed to the game. */
  function RunTaken(calls: seq<Invocation>, ds: seq<Drained>, n: nat, x: Dgram): nat
    requires n <= |calls| && n <= |ds|
    requires forall i :: 0 <= i < n ==> ds[i].used <= |calls[i].input|
  {
    if n == 0 then 0
    else RunTaken(calls, ds, n - 1, x) + TakenN(calls[n - 1].input, 0, ds[n - 1].used, x)
  }

  function RunHanded(ds: seq<Drained>, n: nat, x: Dgram): nat
    requires n <= |ds|
  {
    if n == 0 then 0 else RunHanded(ds, n - 1, x) + HandedN(ds[n - 1].out, x)
  }

  /** Everything the first n calls destroyed. */
  function RunLost(ds: seq<Drained>, n: nat): Lost
    requires n <= |ds|
  {
    if n == 0 then NO_LOSS else AddLost(RunLost(ds, n - 1), ds[n - 1].lost)
  }

  ghost predicate StepBalanced(c: Ctx, calls: seq<Invocation>, ds: seq<Drained>, i: nat, x: Dgram)
    requires i < |calls| && i < |ds|
  {
    && ds[i].used <= |calls[i].input|
    && Balanced(Before(c, ds, i), TakenN(calls[i].input, 0, ds[i].used, x),
                ds[i].c, HandedN(ds[i].out, x), ds[i].lost, x)
  }

  lemma {:induction false} StepsAddUp(c: Ctx, calls: seq<Invocation>, ds: seq<Drained>, n: nat, x: Dgram)
    requires n <= |ds| == |calls|
    requires forall i :: 0 <= i < |ds| ==> ds[i].used <= |calls[i].input|
    requires forall i :: 0 <= i < n ==> StepBalanced(c, calls, ds, i, x)
    ensures Balanced(c, RunTaken(calls, ds, n, x), Before(c, ds, n), RunHanded(ds, n, x), RunLost(ds, n), x)
  {
    NOne(Dgram(Endpoint(0, 0), []), x);
    if n == 0 {
    } else {
      StepsAddUp(c, calls, ds, n - 1, x);
      assert StepBalanced(c, calls, ds, n - 1, x);
      var d := ds[n - 1];
      BalancedTwice(c, RunTaken(calls, ds, n - 1, x), Before(c, ds, n - 1), RunHanded(ds, n - 1, x),
                    RunLost(ds, n - 1),
                    TakenN(calls[n - 1].input, 0, d.used, x), d.c, HandedN(d.out, x), d.lost, x);
    }
  }

  lemma CallIsBalanced(c: Ctx, calls: seq<Invocation>, cap: nat, ds: seq<Drained>, i: nat, x: Dgram)
    requires i < |calls| && i < |ds| && CallAt(c, calls, cap, ds, i)
    ensures StepBalanced(c, calls, ds, i, x)
  {
    CallConserves(Before(c, ds, i), calls[i].input, cap, calls[i].now, x);
  }

  /** Over any run of the hook and for every datagram x, bytes and source included: the copies of
      x held at the start and taken since are those handed to the game, those still held, and
      those destroyed; and the counters say exactly how many packets were destroyed and why. */
  lemma {:induction false} RunConserves(c: Ctx, calls: seq<Invocation>, cap: nat, ds: seq<Drained>, x: Dgram)
    requires IsRun(c, calls, cap, ds)
    ensures var n := |calls|;
            var d, lost := Before(c, ds, n), RunLost(ds, n);
            && InTable(c, x) + RunTaken(calls, ds, n, x)
               == RunHanded(ds, n, x) + InTable(d, x) + N(lost.purged, x) + N(lost.reclaimed, x)
            && d.stats.purged - c.stats.purged == |lost.purged|
            && d.stats.reclaim - c.stats.reclaim == |lost.reclaimed|
  {
    forall i | 0 <= i < |ds| ensures StepBalanced(c, calls, ds, i, x) {
      assert CallAt(c, calls, cap, ds, i);
      CallIsBalanced(c, calls, cap, ds, i, x);
    }
    StepsAddUp(c, calls, ds, |ds|, x);
  }

  /** No call of any run pushes a packet out of a full ring. */
  lemma RunNeverEvicts(c: Ctx, calls: seq<Invocation>, cap: nat, ds: seq<Drained>, n: nat)
    requires IsRun(c, calls, cap, ds) && n < |calls|
    ensures !ds[n].out.Displaced?
  {
    assert CallAt(c, calls, cap, ds, n);
    CallKeeps(Before(c, ds, n), calls[n].input, cap, calls[n].now);
  }

  // ---- Bounded hold --------------------------------------------------------------

  lemma {:induction false} NoneReadyCovers(c: Ctx, now: nat, n: nat, j: nat)
    requires CtxInv(c) && n <= |c.tbl| && j < |c.tbl|
    requires ReadyFrom(c, now, n) == NoneReady
    requires n <= ReorderRuns.Ahead(c.rr, j, |c.tbl|)
    ensures c.tbl[j].key == 0 || Pick(c.cfg, c.tbl[j], now) == Nothing
    decreases |c.tbl| - n
  {
    if n == ReorderRuns.Ahead(c.rr, j, |c.tbl|) {
    } else {
      NoneReadyCovers(c, now, n + 1, j);
    }
  }

  /** When a call reports that nothing is ready, no held packet is its peer's successor and each
      is younger than its peer's window, which never exceeds the configured ceilings. */
  lemma HoldIsBounded(c: Ctx, input: seq<Read>, cap: nat, now: nat, j: nat, i: nat)
    requires CtxInv(c) && InputOk(input)
    requires Call(c, input, cap, now).out == WouldBlock
    ensures var d := Call(c, input, cap, now).c;
            j < |d.tbl| && Held(d.tbl[j].slots, i) ==>
              var p, s := d.tbl[j], d.tbl[j].slots[i];
              && p.init && s.sn != Next(p.last)
              && now < s.ts + HoldWindow(d.cfg, p.win)
              && HoldWindow(d.cfg, p.win) <= d.cfg.winMax
              && (d.cfg.maxHold != 0 ==> HoldWindow(d.cfg, p.win) <= d.cfg.maxHold)
  {
    CallKeeps(c, input, cap, now);
    var d := Call(c, input, cap, now).c;
    if j < |d.tbl| && Held(d.tbl[j].slots, i) {
      CountBounds(d.tbl[j].slots);
      Entry(d, j);
      NoneReadyCovers(d, now, 0, j);
      NothingReadyIff(d.cfg, d.tbl[j], now);
      WindowKept(d.cfg, d.tbl[j], 0, now);
    }
  }

  // ---- The delivery statistics ------------------------------------------------------

  function Total(h: Histogram): nat { h[0] + h[1] + h[2] + h[3] + h[4] + h[5] }

  /** The histogram counts every delivery once, and no wait exceeds their sum. */
  predicate HoldsTrue(s: Stats) {
    Total(s.holds.hist) == s.first + s.inOrder + s.forced + s.evicted && s.holds.max <= s.holds.sum
  }

  lemma DeliveryHolds(s: Stats, kind: Kind, purged: nat, ts: nat, now: nat)
    requires HoldsTrue(s)
    ensures HoldsTrue(CountDelivery(s, kind, purged, ts, now))
  {
    var b := RangeOf(Waited(ts, now));
    assert b == 0 || b == 1 || b == 2 || b == 3 || b == 4 || b == 5;
  }

  /** A read counts no delivery unless it displaces a packet, which the guard rules out. */
  lemma OnReadHolds(c: Ctx, r: Read)
    requires CtxInv(c) && ReadOk(r) && !Saturated(c) && HoldsTrue(c.stats)
    ensures HoldsTrue(OnRead(c, r).c.stats)
  {
    if Sequenced(r) {
      NeverEvicts(c, r.pkt, r.at);
    }
  }

  lemma {:induction false} DrainHolds(c: Ctx, input: seq<Read>, at: nat, cap: nat)
    requires CtxInv(c) && InputOk(input) && at <= |input| && HoldsTrue(c.stats)
    ensures HoldsTrue(Drain(c, input, at, cap).c.stats)
    decreases cap
  {
    if cap == 0 || Saturated(c) || at == |input| {
    } else {
      OnReadKeeps(c, input[at]);
      OnReadHolds(c, input[at]);
      if OnRead(c, input[at]).GoOn? {
        DrainHolds(OnRead(c, input[at]).c, input, at + 1, cap - 1);
      }
    }
  }

  lemma CallHolds(c: Ctx, input: seq<Read>, cap: nat, now: nat)
    requires CtxInv(c) && InputOk(input) && HoldsTrue(c.stats)
    ensures HoldsTrue(Call(c, input, cap, now).c.stats)
  {
    DrainHolds(c, input, 0, cap);
    DrainKeeps(c, input, 0, cap);
    var d := Drain(c, input, 0, cap);
    var r := ReadyFrom(d.c, now, 0);
    if d.out == WouldBlock && r.ReadyAt? {
      var p := d.c.tbl[r.peer];
      DeliveryHolds(d.c.stats, r.kind, |TakeLoss(p, r.slot)|, p.slots[r.slot].ts, now);
    }
  }

  /** In every run of the hook the histogram of waits counts exactly the deliveries. */
  lemma {:induction false} RunHolds(c: Ctx, calls: seq<Invocation>, cap: nat, ds: seq<Drained>, n: nat)
    requires IsRun(c, calls, cap, ds) && n <= |calls| && HoldsTrue(c.stats)
    ensures HoldsTrue(Before(c, ds, n).stats)
  {
    if n == 0 {
    } else {
      RunHolds(c, calls, cap, ds, n - 1);
      assert CallAt(c, calls, cap, ds, n - 1);
      CallHolds(Before(c, ds, n - 1), calls[n - 1].input, cap, calls[n - 1].now);
    }
  }
}
