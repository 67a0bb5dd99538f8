/** Whole runs of the pacer: what reaches the wire, in what order, how late and how fast. */
module PaceRuns {
  import opened PaceModel
  import opened PaceTiming

  // ---- Streams of datagrams ------------------------------------------------------

  /** Shaped traffic is what the pacer may queue; Sequenced adds what bypasses it for its size or
      address but carries a sequence all the same. */
  datatype Stream = Shaped | Sequenced

  predicate Selects(k: Stream, d: Datagram) {
    |d.data| >= SEQ_MIN_PAY && (k == Sequenced || Acceptable(d))
  }

  function OnlyTo(k: Stream, s: seq<Datagram>, n: nat): seq<Datagram>
    requires n <= |s|
  {
    if n == 0 then []
    else OnlyTo(k, s, n - 1) + (if Selects(k, s[n - 1]) then [s[n - 1]] else [])
  }

  function Only(k: Stream, s: seq<Datagram>): seq<Datagram> { OnlyTo(k, s, |s|) }

  lemma {:induction false} OnlyPlusTo(k: Stream, a: seq<Datagram>, b: seq<Datagram>, n: nat)
    requires n <= |b|
    ensures OnlyTo(k, a + b, |a| + n) == Only(k, a) + OnlyTo(k, b, n)
  {
    if n == 0 {
      OnlyPrefix(k, a, b, |a|);
    } else {
      OnlyPlusTo(k, a, b, n - 1);
    }
  }

  lemma {:induction false} OnlyPrefix(k: Stream, a: seq<Datagram>, b: seq<Datagram>, n: nat)
    requires n <= |a|
    ensures OnlyTo(k, a + b, n) == OnlyTo(k, a, n)
  {
    if n == 0 {
    } else {
      OnlyPrefix(k, a, b, n - 1);
    }
  }

  lemma OnlyPlus(k: Stream, a: seq<Datagram>, b: seq<Datagram>)
    ensures Only(k, a + b) == Only(k, a) + Only(k, b)
  {
    OnlyPlusTo(k, a, b, |b|);
  }

  lemma OnlyOne(k: Stream, s: seq<Datagram>, d: Datagram)
    ensures Only(k, s + [d]) == Only(k, s) + (if Selects(k, d) then [d] else [])
  {
    OnlyPlus(k, s, [d]);
    assert OnlyTo(k, [d], 1) == OnlyTo(k, [d], 0) + (if Selects(k, d) then [d] else []);
  }

  lemma {:induction false} OnlyAllTo(k: Stream, s: seq<Datagram>, n: nat)
    requires n <= |s| && forall i :: 0 <= i < |s| ==> Selects(k, s[i])
    ensures OnlyTo(k, s, n) == s[..n]
  {
    if n == 0 {
    } else {
      OnlyAllTo(k, s, n - 1);
    }
  }

  lemma OnlyAll(k: Stream, s: seq<Datagram>)
    requires forall i :: 0 <= i < |s| ==> Selects(k, s[i])
    ensures Only(k, s) == s
  {
    OnlyAllTo(k, s, |s|);
  }

  /** The datagrams the game offered in the first n events, in order. */
  function Offered(es: seq<Event>, n: nat): seq<Datagram>
    requires n <= |es|
  {
    if n == 0 then []
    else Offered(es, n - 1) + OfferOf(es[n - 1])
  }

  function OfferOf(e: Event): seq<Datagram> { if e.Sent? then [e.d] else [] }

  // ---- Nothing lost, duplicated or reordered --------------------------------------

  ghost predicate QueueShaped(w: World) {
    forall i :: 0 <= i < |w.s.q| ==> Selects(Shaped, w.s.q[i].pkt)
  }

  /** After a queueing decision the datagram can always be stored. */
  lemma EnqueueNeverFails(cfg: Config, s: Pace, d: Datagram, now: nat)
    requires Acceptable(d) && Admit(cfg, s, |d.data|, now).d == Queued
    ensures Storable(cfg, Admit(cfg, s, |d.data|, now).s, d)
  {
  }

  lemma StepShaped(cfg: Config, w: World, e: Event)
    requires QueueShaped(w)
    ensures QueueShaped(Step(cfg, w, e))
  {
  }

  /** The wire's shaped traffic followed by the queue. */
  function Committed(k: Stream, w: World): seq<Datagram> {
    Only(k, w.wire) + Packets(w.s.q)
  }

  lemma FlushCommits(k: Stream, w: World)
    requires QueueShaped(w)
    ensures Only(k, w.wire + Packets(w.s.q)) == Committed(k, w)
  {
    OnlyPlus(k, w.wire, Packets(w.s.q));
    OnlyAll(k, Packets(w.s.q));
  }

  /** Moving entries from the head of the queue to the end of the wire. */
  lemma MoveCommits(k: Stream, wire: seq<Datagram>, q: seq<Entry>, n: nat)
    requires n <= |q| && forall i :: 0 <= i < |q| ==> Selects(k, q[i].pkt)
    ensures Only(k, wire + Packets(q[..n])) + Packets(q[n..]) == Only(k, wire) + Packets(q)
  {
    var popped := Packets(q[..n]);
    OnlyPlus(k, wire, popped);
    assert forall i :: 0 <= i < n ==> popped[i] == q[i].pkt;
    OnlyAll(k, popped);
    assert Packets(q) == popped + Packets(q[n..]);
    Reassociate(Only(k, wire), popped, Packets(q[n..]));
  }

  lemma Reassociate(a: seq<Datagram>, b: seq<Datagram>, c: seq<Datagram>)
    ensures (a + b) + c == a + (b + c)
  {
  }

  lemma TickCommits(k: Stream, w: World, now: nat)
    requires QueueShaped(w)
    ensures Committed(k, Tick(w, now)) == Committed(k, w)
  {
    MoveCommits(k, w.wire, w.s.q, DueFrom(w.s.q, now, 0));
  }

  /** What a send appends to the committed stream: the datagram at the end, unless it bypassed the
      pacer while something was queued. */
  lemma SendCommits(cfg: Config, k: Stream, w: World, d: Datagram, t: nat, now: nat)
    requires ConfigOk(cfg) && PaceInv(cfg, w.s, t) && t <= now && QueueShaped(w)
    requires !Selects(k, d) || Acceptable(d) || w.s.q == []
    ensures Committed(k, Send(cfg, w, d, now)) == Committed(k, w) + (if Selects(k, d) then [d] else [])
  {
    var u := Send(cfg, w, d, now);
    if !Acceptable(d) {
      OnlyOne(k, w.wire, d);
    } else {
      AdmitKeeps(cfg, w.s, |d.data|, t, now);
      EnqueueCases(cfg, w.s, d, now);
      var v := Admit(cfg, w.s, |d.data|, now);
      if v.d == Queued {
        assert Packets(u.s.q) == Packets(w.s.q) + [d];
      } else if v.d == SendNow {
        OnlyOne(k, w.wire, d);
      } else {
        FlushCommits(k, w);
        OnlyOne(k, w.wire + Packets(w.s.q), d);
      }
    }
  }

  lemma EnqueueCases(cfg: Config, s: Pace, d: Datagram, now: nat)
    requires Acceptable(d)
    ensures var v := Admit(cfg, s, |d.data|, now);
            && (v.d == Queued ==> Storable(cfg, v.s, d) && |d.data| >= SEQ_MIN_PAY)
            && (v.d == FlushThenSend ==> |d.data| >= SEQ_MIN_PAY)
  {
  }

  ghost function RunFrom(cfg: Config, t0: nat, es: seq<Event>, n: nat): World
    requires n <= |es|
  {
    Run(cfg, World(Init(cfg, t0), []), es, n)
  }

  lemma {:induction false} RunShaped(cfg: Config, t0: nat, es: seq<Event>, n: nat)
    requires n <= |es|
    ensures QueueShaped(RunFrom(cfg, t0, es, n))
  {
    if n == 0 {
    } else {
      RunShaped(cfg, t0, es, n - 1);
      StepShaped(cfg, RunFrom(cfg, t0, es, n - 1), es[n - 1]);
    }
  }

  lemma StepCommits(cfg: Config, k: Stream, w: World, e: Event, t: nat)
    requires ConfigOk(cfg) && PaceInv(cfg, w.s, t) && t <= e.at && QueueShaped(w)
    requires e.Ticked? || !Selects(k, e.d) || Acceptable(e.d) || w.s.q == []
    ensures Committed(k, Step(cfg, w, e)) == Committed(k, w) + Only(k, OfferOf(e))
  {
    match e
    case Sent(d, at) =>
      SendCommits(cfg, k, w, d, t, at);
      OnlyOne(k, [], d);
      assert [] + [d] == [d];
    case Ticked(at) =>
      TickCommits(k, w, at);
  }

  lemma RunCommits(cfg: Config, k: Stream, t0: nat, es: seq<Event>, n: nat)
    requires ConfigOk(cfg) && InOrder(es, t0) && 0 < n <= |es|
    requires var e := es[n - 1];
             e.Ticked? || !Selects(k, e.d) || Acceptable(e.d) || RunFrom(cfg, t0, es, n - 1).s.q == []
    ensures Committed(k, RunFrom(cfg, t0, es, n))
            == Committed(k, RunFrom(cfg, t0, es, n - 1)) + Only(k, OfferOf(es[n - 1]))
    ensures Only(k, Offered(es, n)) == Only(k, Offered(es, n - 1)) + Only(k, OfferOf(es[n - 1]))
  {
    RunKeeps(cfg, t0, es, n - 1);
    RunShaped(cfg, t0, es, n - 1);
    StepCommits(cfg, k, RunFrom(cfg, t0, es, n - 1), es[n - 1], Clock(es, t0, n - 1));
    OnlyPlus(k, Offered(es, n - 1), OfferOf(es[n - 1]));
  }

  lemma RefinesNext(cfg: Config, k: Stream, t0: nat, es: seq<Event>, n: nat)
    requires ConfigOk(cfg) && InOrder(es, t0) && 0 < n <= |es|
    requires var e := es[n - 1];
             e.Ticked? || !Selects(k, e.d) || Acceptable(e.d) || RunFrom(cfg, t0, es, n - 1).s.q == []
    requires Committed(k, RunFrom(cfg, t0, es, n - 1)) == Only(k, Offered(es, n - 1))
    ensures Committed(k, RunFrom(cfg, t0, es, n)) == Only(k, Offered(es, n))
  {
    RunCommits(cfg, k, t0, es, n);
  }

  /** For every interleaving of sends and wake-ups, the shaped datagrams on the wire followed by
      the queue are exactly the shaped datagrams offered: none lost, duplicated or reordered. */
  lemma {:induction false} WireRefinesOffered(cfg: Config, t0: nat, es: seq<Event>, n: nat)
    requires ConfigOk(cfg) && InOrder(es, t0) && n <= |es|
    ensures Committed(Shaped, RunFrom(cfg, t0, es, n)) == Only(Shaped, Offered(es, n))
  {
    if n == 0 {
      StartCommits(cfg, Shaped, t0);
    } else {
      WireRefinesOffered(cfg, t0, es, n - 1);
      RefinesNext(cfg, Shaped, t0, es, n);
    }
  }

  lemma StartCommits(cfg: Config, k: Stream, t0: nat)
    ensures Committed(k, World(Init(cfg, t0), [])) == [] == Only(k, [])
  {
  }

  /** A datagram too small for a sequence is on the wire as soon as it is offered, and moves nothing else. */
  lemma SmallGoesAtOnce(cfg: Config, w: World, d: Datagram, now: nat)
    requires |d.data| < SEQ_MIN_PAY
    ensures var u := Send(cfg, w, d, now);
            u.wire == w.wire + [d] && u.s.q == w.s.q && u.s.tokens == w.s.tokens
  {
  }

  // ---- Datagrams that bypass the pacer ----------------------------------------------

  /** Event n - 1 sends a sequenced datagram past a non-empty queue. */
  ghost predicate Overtakes(cfg: Config, t0: nat, es: seq<Event>, n: nat)
    requires 0 < n <= |es|
  {
    && es[n - 1].Sent? && !Acceptable(es[n - 1].d) && |es[n - 1].d.data| >= SEQ_MIN_PAY
    && RunFrom(cfg, t0, es, n - 1).s.q != []
  }

  ghost predicate IsPrefix(a: seq<Datagram>, b: seq<Datagram>) {
    |a| <= |b| && forall i :: 0 <= i < |a| ==> a[i] == b[i]
  }

  lemma {:induction false} InOrderIfNoOvertaking(cfg: Config, t0: nat, es: seq<Event>, n: nat)
    requires ConfigOk(cfg) && InOrder(es, t0) && n <= |es|
    requires forall i :: 0 < i <= n ==> !Overtakes(cfg, t0, es, i)
    ensures Committed(Sequenced, RunFrom(cfg, t0, es, n)) == Only(Sequenced, Offered(es, n))
  {
    if n == 0 {
      StartCommits(cfg, Sequenced, t0);
    } else {
      InOrderIfNoOvertaking(cfg, t0, es, n - 1);
      assert !Overtakes(cfg, t0, es, n);
      RefinesNext(cfg, Sequenced, t0, es, n);
    }
  }

  lemma WireGrows(cfg: Config, k: Stream, w: World, e: Event)
    ensures IsPrefix(Only(k, w.wire), Only(k, Step(cfg, w, e).wire))
    ensures |w.wire| <= |Step(cfg, w, e).wire| && Step(cfg, w, e).wire[..|w.wire|] == w.wire
  {
    var u := Step(cfg, w, e);
    var more := u.wire[|w.wire|..];
    assert u.wire == w.wire + more;
    OnlyPlus(k, w.wire, more);
  }

  lemma OfferedGrows(k: Stream, es: seq<Event>, n: nat)
    requires 0 < n <= |es|
    ensures IsPrefix(Only(k, Offered(es, n - 1)), Only(k, Offered(es, n)))
  {
    OnlyPlus(k, Offered(es, n - 1), OfferOf(es[n - 1]));
  }

  /** Position p of the sequenced wire holds something other than what was offered in that place. */
  ghost predicate Misplaced(wire: seq<Datagram>, offered: seq<Datagram>, p: nat) {
    var sent, due := Only(Sequenced, wire), Only(Sequenced, offered);
    p < |sent| && p < |due| && sent[p] != due[p]
  }

  lemma OvertakingMisplaces(w: World, offered: seq<Datagram>, d: Datagram)
    requires QueueShaped(w) && w.s.q != [] && Selects(Sequenced, d) && !Acceptable(d)
    requires Committed(Sequenced, w) == Only(Sequenced, offered)
    ensures Misplaced(w.wire + [d], offered + [d], |Only(Sequenced, w.wire)|)
  {
    OnlyOne(Sequenced, w.wire, d);
    OnlyOne(Sequenced, offered, d);
    assert Packets(w.s.q)[0] == w.s.q[0].pkt;
    assert Only(Sequenced, offered)[|Only(Sequenced, w.wire)|] == w.s.q[0].pkt;
  }

  lemma StaysMisplaced(wire: seq<Datagram>, wire2: seq<Datagram>, offered: seq<Datagram>,
      offered2: seq<Datagram>, p: nat)
    requires Misplaced(wire, offered, p)
    requires IsPrefix(Only(Sequenced, wire), Only(Sequenced, wire2))
    requires IsPrefix(Only(Sequenced, offered), Only(Sequenced, offered2))
    ensures Misplaced(wire2, offered2, p)
  {
  }

  /** One overtaking puts a datagram on the wire where a queued one belonged, for good. */
  lemma {:induction false} OvertakingIsPermanent(cfg: Config, t0: nat, es: seq<Event>, i: nat, n: nat)
    returns (p: nat)
    requires ConfigOk(cfg) && InOrder(es, t0) && 0 < i <= n <= |es|
    requires Overtakes(cfg, t0, es, i) && forall j :: 0 < j < i ==> !Overtakes(cfg, t0, es, j)
    ensures Misplaced(RunFrom(cfg, t0, es, n).wire, Offered(es, n), p)
    decreases n - i
  {
    if n == i {
      p := FirstOvertakingMisplaces(cfg, t0, es, i);
    } else {
      p := OvertakingIsPermanent(cfg, t0, es, i, n - 1);
      WireGrows(cfg, Sequenced, RunFrom(cfg, t0, es, n - 1), es[n - 1]);
      OfferedGrows(Sequenced, es, n);
      StaysMisplaced(RunFrom(cfg, t0, es, n - 1).wire, RunFrom(cfg, t0, es, n).wire, Offered(es, n - 1),
        Offered(es, n), p);
    }
  }

  lemma FirstOvertakingMisplaces(cfg: Config, t0: nat, es: seq<Event>, i: nat) returns (p: nat)
    requires ConfigOk(cfg) && InOrder(es, t0) && 0 < i <= |es|
    requires Overtakes(cfg, t0, es, i) && forall j :: 0 < j < i ==> !Overtakes(cfg, t0, es, j)
    ensures Misplaced(RunFrom(cfg, t0, es, i).wire, Offered(es, i), p)
  {
    var w := RunFrom(cfg, t0, es, i - 1);
    InOrderIfNoOvertaking(cfg, t0, es, i - 1);
    RunShaped(cfg, t0, es, i - 1);
    OvertakingMisplaces(w, Offered(es, i - 1), es[i - 1].d);
    p := |Only(Sequenced, w.wire)|;
  }

  /** The whole sequenced stream keeps the game's order exactly when no oversized or oddly addressed
      datagram is sent while something is queued: those bypass the pacer without a flush. */
  lemma SequencedOrderIff(cfg: Config, t0: nat, es: seq<Event>)
    requires ConfigOk(cfg) && InOrder(es, t0)
    ensures Committed(Sequenced, RunFrom(cfg, t0, es, |es|)) == Only(Sequenced, Offered(es, |es|))
            <==> forall i :: 0 < i <= |es| ==> !Overtakes(cfg, t0, es, i)
  {
    var n := |es|;
    if forall i :: 0 < i <= n ==> !Overtakes(cfg, t0, es, i) {
      InOrderIfNoOvertaking(cfg, t0, es, n);
    } else {
      var i :| 0 < i <= n && Overtakes(cfg, t0, es, i);
      var first := FirstOvertaking(cfg, t0, es, i);
      var p := OvertakingIsPermanent(cfg, t0, es, first, n);
      var w := RunFrom(cfg, t0, es, n);
      assert Committed(Sequenced, w)[p] == Only(Sequenced, w.wire)[p];
    }
  }

  lemma {:induction false} FirstOvertaking(cfg: Config, t0: nat, es: seq<Event>, i: nat) returns (r: nat)
    requires 0 < i <= |es| && Overtakes(cfg, t0, es, i)
    ensures 0 < r <= i && Overtakes(cfg, t0, es, r)
    ensures forall j :: 0 < j < r ==> !Overtakes(cfg, t0, es, j)
  {
    r := i;
    if j :| 0 < j < i && Overtakes(cfg, t0, es, j) {
      r := FirstOvertaking(cfg, t0, es, j);
    }
  }

  function Bytes(n: nat): (r: seq<byte>)
    ensures |r| == n
  {
    seq(n, _ => 0)
  }

  /** At a thousand bytes a second: a datagram that takes the whole burst, a short one that has to
      wait, and one too large for the pacer. */
  function Oversized(to: seq<byte>): seq<Event> {
    [Sent(Datagram(1, to, Bytes(2048)), 0), Sent(Datagram(1, to, Bytes(18)), 0),
     Sent(Datagram(1, to, Bytes(2049)), 0)]
  }

  /** The third goes out at once, past the second. */
  lemma OversizedOvertakes(to: seq<byte>)
    requires 0 < |to| <= ADDR_BYTES
    ensures var cfg, es := Config(1000, BurstFor(1000), 20, 16), Oversized(to);
            && ConfigOk(cfg) && InOrder(es, 0) && Overtakes(cfg, 0, es, 3)
            && Committed(Sequenced, RunFrom(cfg, 0, es, 3)) != Only(Sequenced, Offered(es, 3))
  {
    var cfg, es := Config(1000, BurstFor(1000), 20, 16), Oversized(to);
    var w0, w1, w2 := RunFrom(cfg, 0, es, 0), RunFrom(cfg, 0, es, 1), RunFrom(cfg, 0, es, 2);
    assert w1 == Step(cfg, w0, es[0]) && w1.s.tokens == 0 && w1.s.q == [];
    FloorDivIsQuotient(18 * 1000, 1000);
    assert w2 == Step(cfg, w1, es[1]) && |w2.s.q| == 1;
    assert Overtakes(cfg, 0, es, 3);
    SequencedOrderIff(cfg, 0, es);
  }

  // ---- Bounded delay ------------------------------------------------------------------

  /** When each queued packet was offered. */
  ghost function OfferTimes(cfg: Config, t0: nat, es: seq<Event>, n: nat): seq<nat>
    requires n <= |es|
  {
    if n == 0 then []
    else
      var w, e, ts := RunFrom(cfg, t0, es, n - 1), es[n - 1], OfferTimes(cfg, t0, es, n - 1);
      match e
      case Ticked(at) =>
        var k := DueFrom(w.s.q, at, 0);
        if k <= |ts| then ts[k..] else []
      case Sent(d, at) =>
        if !Acceptable(d) then ts
        else
          var v := Admit(cfg, w.s, |d.data|, at);
          if v.d == Queued then ts + [at] else if v.d == SendNow then ts else []
  }

  ghost predicate DelaysBounded(cfg: Config, q: seq<Entry>, ts: seq<nat>) {
    |ts| == |q| && forall i :: 0 <= i < |q| ==> ts[i] <= q[i].due <= ts[i] + cfg.maxDelay
  }

  lemma {:induction false} QueueDelays(cfg: Config, t0: nat, es: seq<Event>, n: nat)
    requires ConfigOk(cfg) && InOrder(es, t0) && n <= |es|
    ensures DelaysBounded(cfg, RunFrom(cfg, t0, es, n).s.q, OfferTimes(cfg, t0, es, n))
  {
    if n == 0 {
    } else {
      QueueDelays(cfg, t0, es, n - 1);
      RunKeeps(cfg, t0, es, n - 1);
      var w, e := RunFrom(cfg, t0, es, n - 1), es[n - 1];
      match e
      case Sent(d, at) => SendDelays(cfg, w, d, Clock(es, t0, n - 1), at, OfferTimes(cfg, t0, es, n - 1));
      case Ticked(at) => DropDelays(cfg, w.s.q, OfferTimes(cfg, t0, es, n - 1), DueFrom(w.s.q, at, 0));
    }
  }

  lemma DropDelays(cfg: Config, q: seq<Entry>, ts: seq<nat>, k: nat)
    requires DelaysBounded(cfg, q, ts) && k <= |q|
    ensures DelaysBounded(cfg, q[k..], ts[k..])
  {
  }

  lemma SendDelays(cfg: Config, w: World, d: Datagram, t: nat, now: nat, ts: seq<nat>)
    requires ConfigOk(cfg) && PaceInv(cfg, w.s, t) && t <= now && DelaysBounded(cfg, w.s.q, ts)
    ensures var v := Admit(cfg, w.s, |d.data|, now);
            DelaysBounded(cfg, Send(cfg, w, d, now).s.q,
                          if !Acceptable(d) || v.d == SendNow then ts
                          else if v.d == Queued then ts + [now] else [])
  {
    if Acceptable(d) {
      AdmitKeeps(cfg, w.s, |d.data|, t, now);
      EnqueueCases(cfg, w.s, d, now);
    }
  }

  /** What a wake-up leaves in the queue is not yet due. */
  lemma LeftIsUndue(cfg: Config, t0: nat, es: seq<Event>, n: nat, i: nat)
    requires ConfigOk(cfg) && InOrder(es, t0) && 0 < n <= |es| && es[n - 1].Ticked?
    requires i < |RunFrom(cfg, t0, es, n).s.q|
    ensures RunFrom(cfg, t0, es, n).s.q[i].due > es[n - 1].at
  {
    TickSendsExactlyDue(cfg, t0, es, n - 1, es[n - 1].at);
    var q := RunFrom(cfg, t0, es, n - 1).s.q;
    var k := DueFrom(q, es[n - 1].at, 0);
    assert RunFrom(cfg, t0, es, n).s.q == q[k..];
  }

  /** Every wake-up at time t leaves in the queue only packets offered after t - maxDelay. */
  lemma DelayIsBounded(cfg: Config, t0: nat, es: seq<Event>, n: nat, i: nat)
    requires ConfigOk(cfg) && InOrder(es, t0) && 0 < n <= |es| && es[n - 1].Ticked?
    requires i < |RunFrom(cfg, t0, es, n).s.q|
    ensures |OfferTimes(cfg, t0, es, n)| == |RunFrom(cfg, t0, es, n).s.q|
    ensures OfferTimes(cfg, t0, es, n)[i] + cfg.maxDelay > es[n - 1].at
  {
    QueueDelays(cfg, t0, es, n);
    LeftIsUndue(cfg, t0, es, n, i);
  }

  // ---- Token-bucket conformance ----------------------------------------------------------

  /** Bytes of sequenced traffic the pacer admitted in the first n events. */
  function Admitted(es: seq<Event>, n: nat): nat
    requires n <= |es|
  {
    if n == 0 then 0
    else
      var e := es[n - 1];
      Admitted(es, n - 1) + (if e.Sent? && Selects(Shaped, e.d) then |e.d.data| else 0)
  }

  function Passes(w: World): nat { w.s.stats.overBudget + w.s.stats.queueFull }

  /** Tokens plus bytes admitted never outgrow the bucket plus what was earned since t0. */
  ghost predicate Funded(cfg: Config, w: World, bytes: nat, t0: nat) {
    1000 * (bytes + w.s.tokens) <= 1000 * cfg.burst + cfg.rate * Max(0, w.s.lastFill - t0)
    && (w.s.lastFill < t0 ==> bytes == 0)
  }

  lemma RefillFunded(cfg: Config, w: World, bytes: nat, t0: nat, now: nat)
    requires Funded(cfg, w, bytes, t0) && w.s.lastFill <= now && t0 <= now && w.s.tokens <= cfg.burst
    ensures Funded(cfg, w.(s := Refill(cfg, w.s, now)), bytes, t0)
  {
    var r := Refill(cfg, w.s, now);
    if now > w.s.lastFill {
      if w.s.lastFill < t0 {
        assert cfg.rate * Max(0, now - t0) >= 0;
      } else {
        var ms := now - w.s.lastFill;
        FloorDivBounds(ms * cfg.rate, 1000);
        assert cfg.rate * (now - t0) == cfg.rate * (w.s.lastFill - t0) + ms * cfg.rate;
      }
    }
  }

  lemma StepFunded(cfg: Config, w: World, e: Event, bytes: nat, t: nat, t0: nat)
    requires ConfigOk(cfg) && cfg.rate > 0 && PaceInv(cfg, w.s, t) && t <= e.at && t0 <= e.at
    requires Funded(cfg, w, bytes, t0) && Passes(Step(cfg, w, e)) == Passes(w)
    ensures Funded(cfg, Step(cfg, w, e),
                   bytes + (if e.Sent? && Selects(Shaped, e.d) then |e.d.data| else 0), t0)
  {
    if e.Sent? && Selects(Shaped, e.d) {
      RefillFunded(cfg, w, bytes, t0, e.at);
      assert Refill(cfg, w.s, e.at).lastFill == e.at;
    }
  }

  lemma PassesGrow(cfg: Config, w: World, e: Event)
    ensures Passes(w) <= Passes(Step(cfg, w, e))
  {
  }

  lemma {:induction false} PassesGrowOver(cfg: Config, w: World, es: seq<Event>, m: nat, n: nat)
    requires m <= n <= |es|
    ensures Passes(Run(cfg, w, es, m)) <= Passes(Run(cfg, w, es, n))
    decreases n
  {
    if m == n {
    } else {
      PassesGrowOver(cfg, w, es, m, n - 1);
      var u := Run(cfg, w, es, n - 1);
      PassesGrow(cfg, u, es[n - 1]);
      assert Run(cfg, w, es, n) == Step(cfg, u, es[n - 1]);
    }
  }

  lemma {:induction false} RunFunded(cfg: Config, w: World, es: seq<Event>, n: nat, t0: nat)
    requires ConfigOk(cfg) && cfg.rate > 0 && PaceInv(cfg, w.s, t0) && InOrder(es, t0) && n <= |es|
    requires Passes(Run(cfg, w, es, n)) == Passes(w)
    ensures PaceInv(cfg, Run(cfg, w, es, n).s, Clock(es, t0, n))
    ensures Funded(cfg, Run(cfg, w, es, n), Admitted(es, n), t0)
  {
    if n == 0 {
      assert cfg.rate * Max(0, w.s.lastFill - t0) >= 0;
    } else {
      PassesGrowOver(cfg, w, es, 0, n - 1);
      PassesGrowOver(cfg, w, es, n - 1, n);
      RunFunded(cfg, w, es, n - 1, t0);
      StepKeeps(cfg, Run(cfg, w, es, n - 1), es[n - 1], Clock(es, t0, n - 1));
      StepFunded(cfg, Run(cfg, w, es, n - 1), es[n - 1], Admitted(es, n - 1), Clock(es, t0, n - 1), t0);
    }
  }

  /** Over any interval without an over-budget or queue-full pass, from any state a run can reach,
      the sequenced bytes admitted are at most the bucket, plus what the rate earns over the interval,
      plus what it earns over the longest delay. */
  lemma BucketConformance(cfg: Config, w: World, es: seq<Event>, t0: nat, t1: nat)
    requires ConfigOk(cfg) && cfg.rate > 0 && PaceInv(cfg, w.s, t0) && InOrder(es, t0)
    requires t0 <= t1 && forall i :: 0 <= i < |es| ==> es[i].at <= t1
    requires Passes(Run(cfg, w, es, |es|)) == Passes(w)
    ensures 1000 * Admitted(es, |es|)
            <= 1000 * cfg.burst + cfg.rate * (t1 - t0) + cfg.rate * (cfg.maxDelay + 1)
  {
    var n := |es|;
    RunFunded(cfg, w, es, n, t0);
    assert Clock(es, t0, n) <= t1;
    FundedBound(cfg, Run(cfg, w, es, n), Admitted(es, n), Clock(es, t0, n), t0, t1);
  }

  lemma FundedBound(cfg: Config, w: World, bytes: nat, t: nat, t0: nat, t1: nat)
    requires cfg.rate > 0 && PaceInv(cfg, w.s, t) && t <= t1 && t0 <= t1 && Funded(cfg, w, bytes, t0)
    ensures 1000 * bytes <= 1000 * cfg.burst + cfg.rate * (t1 - t0) + cfg.rate * (cfg.maxDelay + 1)
  {
    Settle(1000 * bytes, 1000 * w.s.tokens, 1000 * cfg.burst, cfg.rate,
           Max(0, w.s.lastFill - t0), t1 - t0, cfg.rate * (cfg.maxDelay + 1));
  }

  lemma Settle(bytes: int, tokens: int, burst: int, rate: nat, ms: nat, span: nat, slack: int)
    requires bytes + tokens <= burst + rate * ms && tokens > -slack && ms <= span
    ensures bytes <= burst + rate * span + slack
  {
    MulMonotone(ms, span, rate);
    assert ms * rate == rate * ms && span * rate == rate * span;
  }
}
