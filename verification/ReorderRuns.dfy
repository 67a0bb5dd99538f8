/** Whole runs of one peer's buffer: what the sequence of releases looks like. */
module ReorderRuns {
  import opened Serial
  import opened ReorderModel
  import opened ReorderRings

  datatype Event =
    | Arrive(sn: u32, ts: nat, pkt: Dgram)
    | Service(now: nat)

  datatype Release = Release(sn: u32, kind: Kind, pkt: Dgram)

  /** One event.  A full ring stops the drain, so an arrival then stays in the kernel. */
  function Step(cfg: Config, p: Peer, e: Event): (Peer, seq<Release>)
    requires |p.slots| > 0
  {
    match e
    case Arrive(sn, ts, pkt) =>
      if p.filled >= |p.slots| then (p, [])
      else (Insert(Adapt(cfg, p, sn, ts), sn, ts, pkt).0, [])
    case Service(now) =>
      match Pick(cfg, p, now)
      case Nothing => (p, [])
      case Choose(s, k) => (Take(cfg, p, s, now), [Release(p.slots[s].sn, k, p.slots[s].pkt)])
  }

  lemma StepKeeps(cfg: Config, p: Peer, e: Event)
    requires PeerInv(p) && |p.slots| > 0
    ensures PeerInv(Step(cfg, p, e).0)
    ensures |Step(cfg, p, e).0.slots| == |p.slots|
  {
    match e
    case Arrive(sn, ts, pkt) =>
      InsertKeeps(Adapt(cfg, p, sn, ts), sn, ts, pkt);
    case Service(now) =>
      PickHeld(cfg, p, now);
      var c := Pick(cfg, p, now);
      if c.Choose? {
        TakeKeeps(cfg, p, c.slot, now);
      }
  }

  /** The state and the releases, in order, after the events. */
  ghost function Run(cfg: Config, p: Peer, es: seq<Event>): (r: (Peer, seq<Release>))
    requires PeerInv(p) && |p.slots| > 0
    ensures PeerInv(r.0) && |r.0.slots| == |p.slots|
  {
    if es == [] then (p, [])
    else
      var (q, rel) := Run(cfg, p, es[..|es| - 1]);
      var e := es[|es| - 1];
      StepKeeps(cfg, q, e);
      (Step(cfg, q, e).0, rel + Step(cfg, q, e).1)
  }

  /** The cursor never moves back: a step leaves it, sets it, or moves it serially forward. */
  lemma CursorNeverMovesBack(cfg: Config, p: Peer, e: Event)
    requires PeerInv(p) && |p.slots| > 0
    ensures var (q, rel) := Step(cfg, p, e);
            && (p.init ==> q.init && Cmp(q.last, p.last) >= (if rel == [] then 0 else 1))
            && (rel == [] ==> q.init == p.init && q.last == p.last)
            && (rel != [] ==>
                  && q.init && q.last == rel[0].sn
                  && rel[0].kind == (if !p.init then First
                                     else if Cmp(q.last, p.last) == 1 then InOrder else Forced))
  {
    if e.Service? {
      PickHeld(cfg, p, e.now);
    }
  }

  /** Each release is serially ahead of the one before, by exactly one when it was in order. */
  ghost predicate Chained(rel: seq<Release>) {
    forall i :: 0 <= i < |rel| ==> Link(rel, i)
  }

  ghost predicate Link(rel: seq<Release>, i: nat)
    requires i < |rel|
  {
    if i == 0 then rel[i].kind == First
    else
      var d := Cmp(rel[i].sn, rel[i - 1].sn);
      d > 0 && rel[i].kind == (if d == 1 then InOrder else Forced)
  }

  lemma {:induction false} ReleasesAreChained(cfg: Config, p: Peer, es: seq<Event>)
    requires PeerInv(p) && |p.slots| > 0 && !p.init
    ensures Chained(Run(cfg, p, es).1) && EndsAtCursor(Run(cfg, p, es).1, Run(cfg, p, es).0)
  {
    if es == [] {
    } else {
      var front, e := es[..|es| - 1], es[|es| - 1];
      ReleasesAreChained(cfg, p, front);
      StepChains(cfg, Run(cfg, p, front).0, e, Run(cfg, p, front).1, Run(cfg, p, es).1);
    }
  }

  /** The last release, if any, set the cursor. */
  ghost predicate EndsAtCursor(rel: seq<Release>, q: Peer) {
    (q.init <==> rel != []) && (rel != [] ==> q.last == rel[|rel| - 1].sn)
  }

  lemma StepChains(cfg: Config, q: Peer, e: Event, rel: seq<Release>, all: seq<Release>)
    requires PeerInv(q) && |q.slots| > 0 && Chained(rel) && EndsAtCursor(rel, q)
    requires all == rel + Step(cfg, q, e).1
    ensures Chained(all) && EndsAtCursor(all, Step(cfg, q, e).0)
  {
    CursorNeverMovesBack(cfg, q, e);
    var more := Step(cfg, q, e).1;
    if more == [] {
      assert all == rel;
    } else {
      assert more == [more[0]];
      ChainGrows(rel, more[0]);
    }
  }

  lemma ChainGrows(rel: seq<Release>, x: Release)
    requires Chained(rel)
    requires rel == [] ==> x.kind == First
    requires rel != [] ==>
               && Cmp(x.sn, rel[|rel| - 1].sn) > 0
               && x.kind == if Cmp(x.sn, rel[|rel| - 1].sn) == 1 then InOrder else Forced
    ensures Chained(rel + [x])
  {
    var all := rel + [x];
    forall i | 0 <= i < |all|
      ensures Link(all, i)
    {
      if i < |rel| {
        assert Link(rel, i);
      }
    }
  }

  // ---- The window over a run ------------------------------------------------

  /** When the last release of a run was, or else when the entry was claimed. */
  ghost function LastRelease(cfg: Config, p: Peer, es: seq<Event>): nat
    requires PeerInv(p) && |p.slots| > 0
  {
    if es == [] then p.lastDeliver
    else
      var front, e := es[..|es| - 1], es[|es| - 1];
      if e.Service? && Pick(cfg, Run(cfg, p, front).0, e.now).Choose? then e.now else LastRelease(cfg, p, front)
  }

  lemma StepDelivers(cfg: Config, p: Peer, e: Event)
    requires |p.slots| > 0
    ensures var (q, rel) := Step(cfg, p, e);
            && q.lastDeliver == (if rel == [] then p.lastDeliver else e.now) && q.delivered == p.delivered + |rel|
            && (rel == [] <==> e.Arrive? || Pick(cfg, p, e.now) == Nothing)
  {
  }

  lemma {:induction false} RunDelivers(cfg: Config, p: Peer, es: seq<Event>)
    requires PeerInv(p) && |p.slots| > 0
    ensures Run(cfg, p, es).0.lastDeliver == LastRelease(cfg, p, es)
    ensures Run(cfg, p, es).0.delivered == p.delivered + |Run(cfg, p, es).1|
  {
    if es == [] {
    } else {
      RunDelivers(cfg, p, es[..|es| - 1]);
      StepDelivers(cfg, Run(cfg, p, es[..|es| - 1]).0, es[|es| - 1]);
    }
  }

  /** In every run, a packet that arrives behind the cursor leaves a window that covers the time since the last
      release, and one that fills the gap a window that covers the wait of everything held; an arrival widens
      the window for nothing else. */
  lemma {:induction false} RunArrivalCovers(cfg: Config, p: Peer, es: seq<Event>, e: Event, i: int)
    requires PeerInv(p) && |p.slots| > 0 && cfg.adapt && e.Arrive?
    requires var q := Run(cfg, p, es).0; q.init && q.filled < |q.slots| && LastRelease(cfg, p, es) <= e.ts < MOD - 5
    ensures var q := Run(cfg, p, es).0; var w := Step(cfg, q, e).0.win; var gap := Cmp(e.sn, q.last);
            && (gap < 0 ==> Covers(cfg, w, e.ts - LastRelease(cfg, p, es)))
            && (gap == 1 && Held(q.slots, i) && q.slots[i].ts <= e.ts ==> Covers(cfg, w, e.ts - q.slots[i].ts))
            && (w != q.win ==> w > q.win && (gap < 0 || (gap == 1 && q.filled > 0)))
  {
    RunDelivers(cfg, p, es);
    var q := Run(cfg, p, es).0;
    ArrivalWidens(cfg, q, e.sn, e.ts, i);
    InsertLeavesWindow(Adapt(cfg, q, e.sn, e.ts), e.sn, e.ts, e.pkt);
    CountBounds(q.slots);
  }

  lemma InsertLeavesWindow(p: Peer, sn: u32, ts: nat, d: Dgram)
    requires |p.slots| > 0
    ensures Insert(p, sn, ts, d).0.win == p.win
  {
  }

  function Time(e: Event): nat { if e.Arrive? then e.ts else e.now }

  lemma StepWindow(cfg: Config, p: Peer, e: Event)
    requires |p.slots| > 0 && WindowInv(cfg, p)
    ensures var q := Step(cfg, p, e).0;
            && WindowInv(cfg, q)
            && (q.lastAdjust == Time(e) || (q.lastAdjust == p.lastAdjust && q.win == p.win))
            && (q.win < p.win ==> Time(e) - p.lastAdjust >= 500)
  {
    match e
    case Arrive(sn, ts, pkt) => WindowKept(cfg, p, sn, ts);
    case Service(now) =>
      var k := Pick(cfg, p, now);
      if k.Choose? {
        WindowKept(cfg, NoteDelivery(FreeSlot(p, k.slot), p.slots[k.slot].sn, now), 0, now);
      }
  }

  /** After a step that changed the window, and any events no earlier than it, the entry's last adjustment is no
      earlier either. */
  lemma {:induction false} AdjustGrows(cfg: Config, p: Peer, es: seq<Event>, t: nat)
    requires PeerInv(p) && |p.slots| > 0 && WindowInv(cfg, p) && p.lastAdjust >= t
    requires forall k :: 0 <= k < |es| ==> Time(es[k]) >= t
    ensures WindowInv(cfg, Run(cfg, p, es).0) && Run(cfg, p, es).0.lastAdjust >= t
  {
    if es == [] {
    } else {
      AdjustGrows(cfg, p, es[..|es| - 1], t);
      StepWindow(cfg, Run(cfg, p, es[..|es| - 1]).0, es[|es| - 1]);
    }
  }

  /** Half a second passes between any change of the window, either way, and its next narrowing, whatever comes
      between. */
  lemma {:induction false} NarrowingIsSpaced(cfg: Config, p: Peer, e: Event, es: seq<Event>, f: Event)
    requires PeerInv(p) && |p.slots| > 0 && WindowInv(cfg, p) && Step(cfg, p, e).0.win != p.win
    requires forall k :: 0 <= k < |es| ==> Time(es[k]) >= Time(e)
    ensures PeerInv(Step(cfg, p, e).0)
    ensures var q := Run(cfg, Step(cfg, p, e).0, es).0;
            Step(cfg, q, f).0.win < q.win ==> Time(f) >= Time(e) + 500
  {
    StepKeeps(cfg, p, e);
    StepWindow(cfg, p, e);
    AdjustGrows(cfg, Step(cfg, p, e).0, es, Time(e));
    StepWindow(cfg, Run(cfg, Step(cfg, p, e).0, es).0, f);
  }

  /** An arrival that shows the window too short: behind the cursor, or filling the gap held packets wait behind. */
  predicate Disturbs(p: Peer, e: Event) {
    e.Arrive? && p.init && (Cmp(e.sn, p.last) < 0 || (Cmp(e.sn, p.last) == 1 && p.filled > 0))
  }

  ghost predicate Undisturbed(cfg: Config, p: Peer, es: seq<Event>)
    requires PeerInv(p) && |p.slots| > 0
  {
    forall n :: 0 <= n < |es| ==> !Disturbs(Run(cfg, p, es[..n]).0, es[n])
  }

  lemma StepStays(cfg: Config, p: Peer, e: Event, win: nat)
    requires |p.slots| > 0 && p.win == win
    requires if cfg.adapt then win == cfg.winMin && !Disturbs(p, e) else win == cfg.winMax
    ensures Step(cfg, p, e).0.win == win
  {
  }

  /** An entry starts with the least window, and keeps it until an arrival shows it too short; when the window is
      not to adapt it is the greatest, always. */
  lemma {:induction false} StartsAtFloor(cfg: Config, key: nat, t0: nat, es: seq<Event>)
    requires ConfigOk(cfg)
    ensures PeerInv(FreshPeer(cfg, key, t0))
    ensures var p := FreshPeer(cfg, key, t0);
            && (cfg.adapt && Undisturbed(cfg, p, es) ==> Run(cfg, p, es).0.win == cfg.winMin)
            && (!cfg.adapt ==> Run(cfg, p, es).0.win == cfg.winMax)
  {
    FreshKeeps(cfg, key, t0);
    var p := FreshPeer(cfg, key, t0);
    if es == [] {
    } else if !cfg.adapt || Undisturbed(cfg, p, es) {
      var front := es[..|es| - 1];
      assert forall n :: 0 <= n < |front| ==> front[..n] == es[..n];
      StartsAtFloor(cfg, key, t0, front);
      StepStays(cfg, Run(cfg, p, front).0, es[|es| - 1], if cfg.adapt then cfg.winMin else cfg.winMax);
    }
  }

  // ---- The unwrapped sequence -----------------------------------------------

  /** Release i counted without wrapping, starting from the first one's own value. */
  function Unwrap(rel: seq<Release>, i: nat): int
    requires i < |rel|
  {
    if i == 0 then rel[0].sn else Unwrap(rel, i - 1) + Cmp(rel[i].sn, rel[i - 1].sn)
  }

  /** How many of the first n unwrapped values do not follow on from the one before. */
  function Gaps(rel: seq<Release>, n: nat): nat
    requires n <= |rel|
  {
    if n < 2 then 0
    else Gaps(rel, n - 1) + (if Unwrap(rel, n - 1) == Unwrap(rel, n - 2) + 1 then 0 else 1)
  }

  function ForcedCount(rel: seq<Release>, n: nat): nat
    requires n <= |rel|
  {
    if n == 0 then 0 else ForcedCount(rel, n - 1) + (if rel[n - 1].kind == Forced then 1 else 0)
  }

  lemma ModStep(n: int, a: u32, b: u32)
    requires n >= 0 && n % MOD == a && Cmp(b, a) > 0
    ensures (n + Cmp(b, a)) % MOD == b
  {
    var q := n / MOD;
    assert n == q * MOD + a;
    assert n + Cmp(b, a) == q * MOD + b || n + Cmp(b, a) == (q + 1) * MOD + b;
  }

  lemma {:induction false} UnwrapIsImage(rel: seq<Release>, i: nat)
    requires Chained(rel) && i < |rel|
    ensures Unwrap(rel, i) >= 0 && Unwrap(rel, i) % MOD == rel[i].sn
    ensures i > 0 ==> 0 < Unwrap(rel, i) - Unwrap(rel, i - 1) < HALF
  {
    if i == 0 {
    } else {
      UnwrapIsImage(rel, i - 1);
      assert Link(rel, i);
      ModStep(Unwrap(rel, i - 1), rel[i - 1].sn, rel[i].sn);
    }
  }

  lemma {:induction false} UnwrapIncreases(rel: seq<Release>, i: nat, j: nat)
    requires Chained(rel) && i < j < |rel|
    ensures Unwrap(rel, i) < Unwrap(rel, j)
    decreases j
  {
    UnwrapIsImage(rel, j);
    if i == j - 1 {
    } else {
      UnwrapIncreases(rel, i, j - 1);
    }
  }

  lemma {:induction false} GapsAreForced(rel: seq<Release>, n: nat)
    requires Chained(rel) && n <= |rel|
    ensures Gaps(rel, n) == ForcedCount(rel, n)
  {
    if n == 0 {
    } else {
      GapsAreForced(rel, n - 1);
      assert Link(rel, n - 1);
    }
  }

  /** The released sequences are the mod-2^32 image of a strictly increasing sequence of naturals with
      steps below half the circle, with exactly as many gaps as there were forced releases. */
  ghost predicate Ordered(rel: seq<Release>) {
    && (forall i :: 0 <= i < |rel| ==> Unwrap(rel, i) >= 0 && Unwrap(rel, i) % MOD == rel[i].sn)
    && (forall i, j :: 0 <= i < j < |rel| ==> Unwrap(rel, i) < Unwrap(rel, j))
    && (forall i :: 1 <= i < |rel| ==> Unwrap(rel, i) < Unwrap(rel, i - 1) + HALF)
    && Gaps(rel, |rel|) == ForcedCount(rel, |rel|)
  }

  lemma ChainedIsOrdered(rel: seq<Release>)
    requires Chained(rel)
    ensures Ordered(rel)
  {
    GapsAreForced(rel, |rel|);
    forall i | 0 <= i < |rel|
      ensures Unwrap(rel, i) >= 0 && Unwrap(rel, i) % MOD == rel[i].sn
      ensures i > 0 ==> Unwrap(rel, i) < Unwrap(rel, i - 1) + HALF
    {
      UnwrapIsImage(rel, i);
    }
    forall i, j | 0 <= i < j < |rel|
      ensures Unwrap(rel, i) < Unwrap(rel, j)
    {
      UnwrapIncreases(rel, i, j);
    }
  }

  /** Over every run of a peer entry the releases are in order. */
  lemma OrderedDelivery(cfg: Config, key: nat, t0: nat, es: seq<Event>)
    requires ConfigOk(cfg)
    ensures PeerInv(FreshPeer(cfg, key, t0))
    ensures Ordered(Run(cfg, FreshPeer(cfg, key, t0), es).1)
  {
    FreshKeeps(cfg, key, t0);
    ReleasesAreChained(cfg, FreshPeer(cfg, key, t0), es);
    ChainedIsOrdered(Run(cfg, FreshPeer(cfg, key, t0), es).1);
  }

  // ---- Fairness ----------------------------------------------------------------

  /** How many entries the scan passes before it reaches j. */
  function Ahead(rr: nat, j: nat, n: nat): int {
    if j >= rr then j - rr else j - rr + n
  }

  ghost predicate ReadyPeer(c: Ctx, now: nat, j: nat) {
    j < |c.tbl| && c.tbl[j].key != 0 && Pick(c.cfg, c.tbl[j], now).Choose?
  }

  /** The scan returns the ready entry nearest past its cursor. */
  lemma {:induction false} ScanFindsNearest(c: Ctx, now: nat, n: nat, j: nat)
    requires c.rr < |c.tbl| && ReadyPeer(c, now, j) && n <= Ahead(c.rr, j, |c.tbl|)
    ensures var r := ReadyFrom(c, now, n);
            r.ReadyAt? && ReadyPeer(c, now, r.peer)
            && n <= Ahead(c.rr, r.peer, |c.tbl|) <= Ahead(c.rr, j, |c.tbl|)
    decreases |c.tbl| - n
  {
    var i := Wrap(c.rr + n, |c.tbl|);
    if i == j || (c.tbl[i].key != 0 && Pick(c.cfg, c.tbl[i], now).Choose?) {
    } else {
      ScanFindsNearest(c, now, n + 1, j);
    }
  }

  /** Peer j is released from within n releases at the instant now. */
  ghost predicate ServedWithin(c: Ctx, now: nat, j: nat, n: nat)
    requires c.rr < |c.tbl|
    decreases n
  {
    n > 0 &&
    var r := ReadyFrom(c, now, 0);
    r.ReadyAt? && (r.peer == j || ServedWithin(TakeAt(c, r, now), now, j, n - 1))
  }

  /** A ready peer is served before the scan has made more releases than there are entries
      between the cursor and it, whatever the others hold. */
  lemma {:induction false} ReadyPeerIsServed(c: Ctx, now: nat, j: nat)
    requires c.rr < |c.tbl| && ReadyPeer(c, now, j)
    ensures ServedWithin(c, now, j, Ahead(c.rr, j, |c.tbl|) + 1)
    ensures Ahead(c.rr, j, |c.tbl|) + 1 <= |c.tbl|
    decreases Ahead(c.rr, j, |c.tbl|)
  {
    ScanFindsNearest(c, now, 0, j);
    var r := ReadyFrom(c, now, 0);
    if r.peer == j {
    } else {
      var d := TakeAt(c, r, now);
      assert d.tbl[j] == c.tbl[j];
      ReadyPeerIsServed(d, now, j);
      ServedMonotone(d, now, j, Ahead(d.rr, j, |c.tbl|) + 1, Ahead(c.rr, j, |c.tbl|));
    }
  }

  lemma {:induction false} ServedMonotone(c: Ctx, now: nat, j: nat, m: nat, n: nat)
    requires c.rr < |c.tbl| && ServedWithin(c, now, j, m) && m <= n
    ensures ServedWithin(c, now, j, n)
    decreases m
  {
    var r := ReadyFrom(c, now, 0);
    if r.peer == j {
    } else {
      ServedMonotone(TakeAt(c, r, now), now, j, m - 1, n - 1);
    }
  }
}
