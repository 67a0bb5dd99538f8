/** One peer's ring: the invariant every operation keeps, and what a release destroys. */
module ReorderRings {
  import opened Serial
  import opened ReorderModel

  // ---- Counting and bags ---------------------------------------------------

  function Weight(s: Slot): nat { if s.used then 1 else 0 }

  lemma {:induction false} UpdateCount(slots: seq<Slot>, i: nat, s: Slot, n: nat)
    requires i < |slots| && n <= |slots|
    ensures CountTo(slots[i := s], n)
            == CountTo(slots, n) + (if i < n then Weight(s) - Weight(slots[i]) else 0)
  {
    if n == 0 {
    } else {
      UpdateCount(slots, i, s, n - 1);
    }
  }

  /** How many of the first n packets of b are x. */
  function NTo(b: seq<Dgram>, n: nat, x: Dgram): nat
    requires n <= |b|
  {
    if n == 0 then 0 else NTo(b, n - 1, x) + One(b[n - 1], x)
  }

  function One(d: Dgram, x: Dgram): nat { if d == x then 1 else 0 }

  function N(b: seq<Dgram>, x: Dgram): nat { NTo(b, |b|, x) }

  lemma {:induction false} NPlusTo(a: seq<Dgram>, b: seq<Dgram>, k: nat, x: Dgram)
    requires k <= |a| + |b|
    ensures NTo(a + b, k, x) == if k <= |a| then NTo(a, k, x) else NTo(a, |a|, x) + NTo(b, k - |a|, x)
  {
    if k == 0 {
    } else {
      NPlusTo(a, b, k - 1, x);
    }
  }

  lemma NPlus(a: seq<Dgram>, b: seq<Dgram>, x: Dgram)
    ensures N(a + b, x) == N(a, x) + N(b, x)
  {
    NPlusTo(a, b, |a| + |b|, x);
  }

  lemma NOne(d: Dgram, x: Dgram)
    ensures N([d], x) == One(d, x)
    ensures N([], x) == 0
  {
    assert NTo([d], 1, x) == NTo([d], 0, x) + One([d][0], x);
  }

  /** How many copies of x the first n slots hold. */
  function CopiesTo(slots: seq<Slot>, n: nat, x: Dgram): nat
    requires n <= |slots|
  {
    if n == 0 then 0 else CopiesTo(slots, n - 1, x) + CopiesIn(slots[n - 1], x)
  }

  function CopiesIn(s: Slot, x: Dgram): nat { if s.used then One(s.pkt, x) else 0 }

  function Copies(slots: seq<Slot>, x: Dgram): nat { CopiesTo(slots, |slots|, x) }

  /** Overwriting one slot changes the copies of x by exactly what went and what came. */
  lemma {:induction false} UpdateCopies(slots: seq<Slot>, i: nat, s: Slot, n: nat, x: Dgram)
    requires i < |slots| && n <= |slots|
    ensures CopiesTo(slots[i := s], n, x)
            == CopiesTo(slots, n, x) + (if i < n then CopiesIn(s, x) as int - CopiesIn(slots[i], x) else 0)
  {
    if n == 0 {
    } else {
      UpdateCopies(slots, i, s, n - 1, x);
    }
  }

  lemma {:induction false} HeldCopies(slots: seq<Slot>, n: nat, x: Dgram)
    requires n <= |slots|
    ensures N(HeldTo(slots, n), x) == CopiesTo(slots, n, x)
    ensures |HeldTo(slots, n)| == CountTo(slots, n)
  {
    if n == 0 {
    } else {
      HeldCopies(slots, n - 1, x);
      var s := slots[n - 1];
      NPlus(HeldTo(slots, n - 1), if s.used then [s.pkt] else [], x);
      NOne(s.pkt, x);
    }
  }

  lemma {:induction false} CountBoundsTo(slots: seq<Slot>, n: nat)
    requires n <= |slots|
    ensures CountTo(slots, n) <= n
    ensures CountTo(slots, n) == n <==> forall i :: 0 <= i < n ==> slots[i].used
    ensures CountTo(slots, n) == 0 <==> forall i :: 0 <= i < n ==> !slots[i].used
  {
    if n == 0 {
    } else {
      CountBoundsTo(slots, n - 1);
    }
  }

  lemma CountBounds(slots: seq<Slot>)
    ensures Count(slots) <= |slots|
    ensures Count(slots) == |slots| <==> forall i :: 0 <= i < |slots| ==> slots[i].used
    ensures Count(slots) == 0 <==> forall i :: 0 <= i < |slots| ==> !slots[i].used
  {
    CountBoundsTo(slots, |slots|);
  }

  /** A purge splits the ring exactly into what it keeps and what it destroys. */
  lemma {:induction false} PurgeSplits(slots: seq<Slot>, last: u32, n: nat, x: Dgram)
    requires n <= |slots|
    ensures CopiesTo(PurgeSlots(slots, last), n, x) + N(PurgedTo(slots, last, n), x) == CopiesTo(slots, n, x)
    ensures CountTo(PurgeSlots(slots, last), n) + |PurgedTo(slots, last, n)| == CountTo(slots, n)
  {
    if n == 0 {
    } else {
      PurgeSplits(slots, last, n - 1, x);
      var s := slots[n - 1];
      NPlus(PurgedTo(slots, last, n - 1), if Passed(s, last) then [s.pkt] else [], x);
      NOne(s.pkt, x);
    }
  }

  // ---- The invariant ----------------------------------------------------------

  ghost predicate Distinct(slots: seq<Slot>) {
    forall i, j {:trigger Held(slots, i), Held(slots, j)} ::
      Held(slots, i) && Held(slots, j) && i != j ==> slots[i].sn != slots[j].sn
  }

  ghost predicate AllAhead(slots: seq<Slot>, last: u32) {
    forall i {:trigger Held(slots, i)} :: Held(slots, i) ==> Cmp(slots[i].sn, last) > 0
  }

  /** Held sequences are distinct and strictly ahead of the cursor; filled counts them. */
  ghost predicate PeerInv(p: Peer) {
    && p.filled == Count(p.slots)
    && Distinct(p.slots)
    && (p.init ==> AllAhead(p.slots, p.last))
  }

  lemma {:induction false} EmptyRing(slots: seq<Slot>, n: nat, x: Dgram)
    requires n <= |slots| && CountTo(slots, n) == 0
    ensures CopiesTo(slots, n, x) == 0
  {
    if n == 0 {
    } else {
      EmptyRing(slots, n - 1, x);
    }
  }

  /** A newly claimed entry holds nothing. */
  lemma FreshKeeps(cfg: Config, key: nat, now: nat)
    ensures PeerInv(FreshPeer(cfg, key, now))
    ensures FreshPeer(cfg, key, now).filled == 0 && forall x :: Copies(FreshPeer(cfg, key, now).slots, x) == 0
    ensures cfg.winMin <= cfg.winMax ==> WindowInv(cfg, FreshPeer(cfg, key, now))
  {
    var slots := FreshPeer(cfg, key, now).slots;
    CountBounds(slots);
    forall x ensures Copies(slots, x) == 0 {
      EmptyRing(slots, |slots|, x);
    }
  }

  lemma PurgeKeeps(p: Peer)
    requires Distinct(p.slots) && p.filled == Count(p.slots)
    ensures PeerInv(Purge(p))
  {
    if p.init {
      var q := PurgeSlots(p.slots, p.last);
      assert forall i :: Held(q, i) ==> Held(p.slots, i) && q[i] == p.slots[i];
    }
  }

  lemma NoteKeeps(p: Peer, sn: u32, now: nat)
    requires Distinct(p.slots) && p.filled == Count(p.slots)
    ensures PeerInv(NoteDelivery(p, sn, now))
  {
    PurgeKeeps(Advance(p, sn));
  }

  lemma InsertKeeps(p: Peer, sn: u32, ts: nat, d: Dgram)
    requires PeerInv(p) && |p.slots| > 0
    ensures PeerInv(Insert(p, sn, ts, d).0)
    ensures |Insert(p, sn, ts, d).0.slots| == |p.slots|
  {
    var (q, r) := Insert(p, sn, ts, d);
    if r.Buffered? || r.EvictedOldest? {
      var at := if r.Buffered? then FindFree(p.slots, 0) else OldestSlot(p.slots, 1, 0);
      var s := Slot(true, ts, sn, d.(data := Clip(d.data)));
      CountBounds(p.slots);
      PutKeeps(p, at, s);
      assert q.slots == p.slots[at := s];
    }
  }

  /** Overwriting a slot with a packet that is new to the ring and ahead of the cursor. */
  lemma PutKeeps(p: Peer, at: nat, s: Slot)
    requires PeerInv(p) && at < |p.slots| && s.used
    requires forall j :: Held(p.slots, j) ==> p.slots[j].sn != s.sn
    requires p.init ==> Cmp(s.sn, p.last) > 0
    ensures Count(p.slots[at := s]) == Count(p.slots) + 1 - Weight(p.slots[at])
    ensures Distinct(p.slots[at := s])
    ensures p.init ==> AllAhead(p.slots[at := s], p.last)
  {
    UpdateCount(p.slots, at, s, |p.slots|);
    var q := p.slots[at := s];
    assert forall i :: Held(q, i) && i != at ==> Held(p.slots, i) && q[i] == p.slots[i];
  }

  /** A ring with a free slot never evicts: the guard the drain loop runs first. */
  lemma InsertWithRoom(p: Peer, sn: u32, ts: nat, d: Dgram)
    requires PeerInv(p) && p.filled < |p.slots|
    ensures !Insert(p, sn, ts, d).1.EvictedOldest?
  {
    CountBounds(p.slots);
  }

  lemma FreeKeeps(p: Peer, slot: nat)
    requires PeerInv(p) && Held(p.slots, slot)
    ensures PeerInv(FreeSlot(p, slot))
  {
    UpdateCount(p.slots, slot, p.slots[slot].(used := false), |p.slots|);
    CountBounds(p.slots);
    var q := FreeSlot(p, slot).slots;
    assert forall i :: Held(q, i) ==> Held(p.slots, i) && q[i] == p.slots[i];
  }

  lemma TakeKeeps(cfg: Config, p: Peer, slot: nat, now: nat)
    requires PeerInv(p) && Held(p.slots, slot)
    ensures PeerInv(Take(cfg, p, slot, now))
    ensures |Take(cfg, p, slot, now).slots| == |p.slots|
  {
    FreeKeeps(p, slot);
    NoteKeeps(FreeSlot(p, slot), p.slots[slot].sn, now);
  }

  // ---- The two scans ------------------------------------------------------------

  /** Held slot m is serially before every other held slot. */
  ghost predicate SerialMin(slots: seq<Slot>, m: int) {
    Held(slots, m) && forall j :: Held(slots, j) && j != m ==> Cmp(slots[j].sn, slots[m].sn) > 0
  }

  lemma {:induction false} FirstScanFindsMin(slots: seq<Slot>, i: nat, best: nat, m: nat)
    requires i <= |slots| && best <= |slots| && SerialMin(slots, m)
    requires best == m || (i <= m && (best < |slots| ==> slots[best].used))
    ensures FirstScan(slots, i, best) == m
    decreases |slots| - i
  {
    if i == |slots| {
    } else {
      if slots[i].used && best < |slots| {
        CmpFlip(slots[i].sn, slots[best].sn);
      }
      if !slots[i].used {
        FirstScanFindsMin(slots, i + 1, best, m);
      } else if i == m {
        FirstScanFindsMin(slots, i + 1, m, m);
      } else if best == m {
        FirstScanFindsMin(slots, i + 1, m, m);
      } else if best == |slots| || Cmp(slots[i].sn, slots[best].sn) < 0
           || (Cmp(slots[i].sn, slots[best].sn) == 0 && slots[i].ts < slots[best].ts) {
        FirstScanFindsMin(slots, i + 1, i, m);
      } else {
        FirstScanFindsMin(slots, i + 1, best, m);
      }
    }
  }

  lemma {:induction false} FirstScanFindsSome(slots: seq<Slot>, i: nat, best: nat, j: nat)
    requires i <= |slots| && best <= |slots|
    requires best < |slots| || (i <= j && Held(slots, j))
    ensures FirstScan(slots, i, best) < |slots|
    decreases |slots| - i
  {
    if i == |slots| {
    } else {
      if !slots[i].used {
        FirstScanFindsSome(slots, i + 1, best, j);
      } else if best == |slots| {
        FirstScanFindsSome(slots, i + 1, i, j);
      } else {
        FirstScanFindsSome(slots, i + 1, i, j);
        FirstScanFindsSome(slots, i + 1, best, j);
      }
    }
  }

  /** b describes the aged slots among the first i: the nearest at or ahead of want, and the oldest. */
  ghost predicate BestUpTo(slots: seq<Slot>, want: u32, hold: nat, now: nat, i: nat, b: AgedBest)
    requires i <= |slots| && b.ahead <= |slots| && b.oldest <= |slots|
  {
    var n := |slots|;
    && (b.ahead < n ==> Aged(slots[b.ahead], hold, now) && Cmp(slots[b.ahead].sn, want) >= 0)
    && (b.oldest < n ==> Aged(slots[b.oldest], hold, now))
    && forall j :: 0 <= j < i && Aged(slots[j], hold, now) ==>
         && b.oldest < n && slots[b.oldest].ts <= slots[j].ts
         && (Cmp(slots[j].sn, want) >= 0 ==>
               b.ahead < n && Cmp(slots[b.ahead].sn, want) <= Cmp(slots[j].sn, want))
  }

  lemma {:induction false} AgedScanBest(slots: seq<Slot>, want: u32, hold: nat, now: nat, i: nat, b: AgedBest)
    requires i <= |slots| && b.ahead <= |slots| && b.oldest <= |slots|
    requires BestUpTo(slots, want, hold, now, i, b)
    ensures BestUpTo(slots, want, hold, now, |slots|, AgedScan(slots, want, hold, now, i, b))
    decreases |slots| - i
  {
    if i == |slots| {
    } else {
      AgedScanBest(slots, want, hold, now, i + 1, AgedStep(slots, want, hold, now, i, b));
    }
  }

  /** What the scan for an expired packet settles on, in a ring whose packets are all ahead:
      the oldest-arrival fallback is never needed, and the nearest expired packet is chosen. */
  lemma ForcedChoice(cfg: Config, p: Peer, now: nat)
    requires PeerInv(p) && p.init
    ensures var n, want, hold := |p.slots|, Next(p.last), HoldWindow(cfg, p.win);
            var b := AgedScan(p.slots, want, hold, now, 0, AgedBest(n, n));
            && (b.oldest < n ==> b.ahead < n)
            && (b.ahead < n ==>
                  && Aged(p.slots[b.ahead], hold, now)
                  && forall j :: 0 <= j < n && Aged(p.slots[j], hold, now) ==>
                       Cmp(p.slots[b.ahead].sn, p.last) <= Cmp(p.slots[j].sn, p.last))
            && (b.ahead == n ==> forall j :: 0 <= j < n ==> !Aged(p.slots[j], hold, now))
  {
    var n, want, hold := |p.slots|, Next(p.last), HoldWindow(cfg, p.win);
    AgedScanBest(p.slots, want, hold, now, 0, AgedBest(n, n));
    forall j | Held(p.slots, j)
      ensures Cmp(p.slots[j].sn, want) == Cmp(p.slots[j].sn, p.last) - 1
    {
      assert Cmp(p.slots[j].sn, p.last) > 0;
      CmpFromOrigin(p.slots[j].sn, want, p.last);
    }
  }

  /** A choice is always of a held slot, and its kind says why. */
  lemma PickHeld(cfg: Config, p: Peer, now: nat)
    requires PeerInv(p)
    ensures var c := Pick(cfg, p, now);
            c.Choose? ==>
              && Held(p.slots, c.slot)
              && (c.kind == First <==> !p.init)
              && (c.kind == InOrder <==> p.init && p.slots[c.slot].sn == Next(p.last))
              && c.kind != Evicted
  {
    if p.init {
      ForcedChoice(cfg, p, now);
    }
  }

  // ---- Bounded hold -----------------------------------------------------------

  /** Nothing is released exactly when nothing is held, or every held packet is still inside
      its peer's window and none of them is the awaited successor. */
  lemma NothingReadyIff(cfg: Config, p: Peer, now: nat)
    requires PeerInv(p)
    ensures Pick(cfg, p, now) == Nothing <==>
              forall i :: Held(p.slots, i) ==>
                && p.init
                && p.slots[i].sn != Next(p.last)
                && (now < p.slots[i].ts || now - p.slots[i].ts < HoldWindow(cfg, p.win))
  {
    CountBounds(p.slots);
    if p.init {
      ForcedChoice(cfg, p, now);
    } else if p.filled != 0 {
      var j :| 0 <= j < |p.slots| && p.slots[j].used;
      FirstScanFindsSome(p.slots, 0, |p.slots|, j);
    }
  }

  ghost predicate WindowInv(cfg: Config, p: Peer) {
    cfg.winMin <= p.win <= cfg.winMax
  }

  lemma WindowKept(cfg: Config, p: Peer, sn: u32, now: nat)
    requires WindowInv(cfg, p)
    ensures WindowInv(cfg, Adapt(cfg, p, sn, now))
    ensures WindowInv(cfg, Decay(cfg, p, now))
    ensures Adapt(cfg, p, sn, now).win >= p.win >= Decay(cfg, p, now).win
    ensures HoldWindow(cfg, p.win) <= cfg.winMax
    ensures cfg.maxHold != 0 ==> HoldWindow(cfg, p.win) <= cfg.maxHold
  {
  }

  /** The measured wait is at least that of every held packet, and is that of one of them or nothing. */
  lemma {:induction false} OldestIsOldest(slots: seq<Slot>, now: nat, n: nat)
    requires n <= |slots|
    ensures OldestTs(slots, now, n) <= now
    ensures forall i :: 0 <= i < n && slots[i].used ==> OldestTs(slots, now, n) <= slots[i].ts
    ensures OldestTs(slots, now, n) == now || exists i :: Held(slots, i) && slots[i].ts == OldestTs(slots, now, n)
  {
    if n == 0 {
    } else {
      OldestIsOldest(slots, now, n - 1);
      assert slots[n - 1].used ==> Held(slots, n - 1);
    }
  }

  /** The window covers a wait, with five milliseconds to spare, as far as the ceiling lets it. */
  predicate Covers(cfg: Config, win: nat, wait: int) {
    win >= Min(wait + 5, cfg.winMax)
  }

  /** How far an arrival widens the window, below the truncation to 32 bits.  A packet the cursor has passed shows
      the time since the last delivery to have been too short, and the one that fills the gap the wait of every
      packet held behind it; the window then covers that, and grows for nothing else and no further. */
  lemma ArrivalWidens(cfg: Config, p: Peer, sn: u32, now: nat, i: int)
    requires cfg.adapt && p.init && p.lastDeliver <= now < MOD - 5 && PeerInv(p)
    ensures var w, late := Adapt(cfg, p, sn, now).win, Cmp(sn, p.last) < 0;
            var fills := sn == Next(p.last) && p.filled > 0;
            && (late ==> Covers(cfg, w, now - p.lastDeliver))
            && (fills && Held(p.slots, i) && p.slots[i].ts <= now ==> Covers(cfg, w, now - p.slots[i].ts))
            && (w != p.win ==> w > p.win && (late || fills))
            && (w != p.win && late ==> w <= now - p.lastDeliver + 5)
            && (w != p.win && fills ==>
                  w <= 5 || exists j :: Held(p.slots, j) && p.slots[j].ts <= now && w <= now - p.slots[j].ts + 5)
  {
    OldestIsOldest(p.slots, now, |p.slots|);
  }

  /** What a release does to the window: half a second after it last changed it loses a quarter of its excess over
      the floor, rounded so that what is left is at most three quarters and less than one millisecond under them;
      before that it stays. */
  lemma ReleaseNarrows(cfg: Config, p: Peer, slot: nat, now: nat)
    requires cfg.adapt && WindowInv(cfg, p) && slot < |p.slots|
    ensures var q := Take(cfg, p, slot, now);
            if now - p.lastAdjust >= 500 then
              q.lastAdjust == now && 3 * (p.win - cfg.winMin) - 4 < 4 * (q.win - cfg.winMin) <= 3 * (p.win - cfg.winMin)
            else q.win == p.win && q.lastAdjust == p.lastAdjust
  {
  }

  function Pow(b: nat, k: nat): nat { if k == 0 then 1 else b * Pow(b, k - 1) }

  /** k decay steps, each after a quiet period. */
  function Decays(cfg: Config, p: Peer, times: seq<nat>): Peer {
    if times == [] then p
    else Decay(cfg, Decays(cfg, p, times[..|times| - 1]), times[|times| - 1])
  }

  predicate QuietSteps(cfg: Config, p: Peer, times: seq<nat>) {
    times == [] ||
    (var before := times[..|times| - 1];
     QuietSteps(cfg, p, before)
     && times[|times| - 1] - Decays(cfg, p, before).lastAdjust >= DECAY_MS)
  }

  lemma GeometricStep(x0: nat, x1: nat, x2: nat, threes: nat, fours: nat)
    requires x1 * fours <= x0 * threes && 4 * x2 <= 3 * x1
    ensures x2 * (4 * fours) <= x0 * (3 * threes)
  {
    calc {
      x2 * (4 * fours);
      == (4 * x2) * fours;
      <= (3 * x1) * fours;
      == 3 * (x1 * fours);
      <= 3 * (x0 * threes);
      == x0 * (3 * threes);
    }
  }

  /** The excess over the floor shrinks geometrically, by a quarter a step. */
  lemma {:induction false} DecayIsGeometric(cfg: Config, p: Peer, times: seq<nat>)
    requires cfg.adapt && WindowInv(cfg, p) && QuietSteps(cfg, p, times)
    ensures WindowInv(cfg, Decays(cfg, p, times))
    ensures var k := |times|;
            (Decays(cfg, p, times).win - cfg.winMin) * Pow(4, k) <= (p.win - cfg.winMin) * Pow(3, k)
  {
    if times == [] {
    } else {
      var k := |times| - 1;
      DecayIsGeometric(cfg, p, times[..k]);
      var x0 := p.win - cfg.winMin;
      var x1 := Decays(cfg, p, times[..k]).win - cfg.winMin;
      var x2 := Decays(cfg, p, times).win - cfg.winMin;
      GeometricStep(x0, x1, x2, Pow(3, k), Pow(4, k));
    }
  }

  /** Once 3^k of the initial excess is below 4^k, the window is back at its floor. */
  lemma DecayReachesFloor(cfg: Config, p: Peer, times: seq<nat>)
    requires cfg.adapt && WindowInv(cfg, p) && QuietSteps(cfg, p, times)
    requires (p.win - cfg.winMin) * Pow(3, |times|) < Pow(4, |times|)
    ensures Decays(cfg, p, times).win == cfg.winMin
  {
    DecayIsGeometric(cfg, p, times);
    ProductBelow(Decays(cfg, p, times).win - cfg.winMin, Pow(4, |times|));
  }

  lemma ProductBelow(x: nat, f: nat)
    ensures x * f < f ==> x == 0
  {
    if x >= 1 {
      assert x * f == f + (x - 1) * f;
    }
  }

  // ---- Loss attribution -------------------------------------------------------

  /** Packet i is held before the release of slot and gone after it. */
  ghost predicate Destroyed(cfg: Config, p: Peer, slot: nat, now: nat, i: int)
    requires slot < |p.slots|
  {
    i != slot && Held(p.slots, i) && !Held(Take(cfg, p, slot, now).slots, i)
  }

  lemma DestroyedIff(cfg: Config, p: Peer, slot: nat, now: nat, i: int)
    requires PeerInv(p) && Held(p.slots, slot) && Held(p.slots, i) && i != slot
    ensures Destroyed(cfg, p, slot, now, i) <==> Cmp(p.slots[i].sn, p.slots[slot].sn) <= 0
    ensures !Destroyed(cfg, p, slot, now, i) ==> Take(cfg, p, slot, now).slots[i] == p.slots[i]
  {
  }

  /** Releasing the awaited successor destroys nothing. */
  lemma InOrderDestroysNothing(cfg: Config, p: Peer, now: nat)
    requires PeerInv(p)
    ensures var c := Pick(cfg, p, now);
            c.Choose? && c.kind == InOrder ==> forall i :: !Destroyed(cfg, p, c.slot, now, i)
  {
    PickHeld(cfg, p, now);
    var c := Pick(cfg, p, now);
    if c.Choose? && c.kind == InOrder {
      forall i | i != c.slot && Held(p.slots, i)
        ensures !Destroyed(cfg, p, c.slot, now, i)
      {
        CmpFromOrigin(p.slots[i].sn, p.slots[c.slot].sn, p.last);
        DestroyedIff(cfg, p, c.slot, now, i);
      }
    }
  }

  /** A forced release of s destroys exactly the held packets between the cursor and s,
      and every one of them arrived after s did and is still inside the hold window. */
  lemma ForcedDestroysExactly(cfg: Config, p: Peer, now: nat, i: int)
    requires PeerInv(p) && Pick(cfg, p, now).Choose? && Pick(cfg, p, now).kind == Forced
    ensures var s := Pick(cfg, p, now).slot;
            && Held(p.slots, s)
            && (Destroyed(cfg, p, s, now, i) <==>
                  Held(p.slots, i) && 0 < Cmp(p.slots[i].sn, p.last) < Cmp(p.slots[s].sn, p.last))
            && (Destroyed(cfg, p, s, now, i) ==>
                  p.slots[s].ts < p.slots[i].ts
                  && !Aged(p.slots[i], HoldWindow(cfg, p.win), now))
  {
    PickHeld(cfg, p, now);
    ForcedChoice(cfg, p, now);
    var s := Pick(cfg, p, now).slot;
    if Held(p.slots, i) && i != s {
      CmpFromOrigin(p.slots[i].sn, p.slots[s].sn, p.last);
      DestroyedIff(cfg, p, s, now, i);
    }
  }

  /** Awaiting 1 with a window of 5 ms: 3 came at time 0 and 2 at time 8, so at time 10 only 3 has
      aged.  It goes out, and 2 is destroyed. */
  lemma ForcedMayDestroy(cfg: Config, a: Dgram, b: Dgram)
    requires cfg.maxHold == 0
    ensures var p := Peer(1, true, 0, 2, 5, 0, 0, 0, 0, [Slot(true, 0, 3, a), Slot(true, 8, 2, b)]);
            PeerInv(p) && Pick(cfg, p, 10) == Choose(0, Forced) && Destroyed(cfg, p, 0, 10, 1)
  {
    var slots := [Slot(true, 0, 3, a), Slot(true, 8, 2, b)];
    var p := Peer(1, true, 0, 2, 5, 0, 0, 0, 0, slots);
    assert CountTo(slots, 0) == 0;
    assert CountTo(slots, 1) == 1;
    assert CountTo(slots, 2) == 2;
    assert PeerInv(p);
    assert FindSn(slots, 1, 0) == 2;
    assert AgedStep(slots, 1, 5, 10, 0, AgedBest(2, 2)) == AgedBest(0, 0);
    assert AgedStep(slots, 1, 5, 10, 1, AgedBest(0, 0)) == AgedBest(0, 0);
    assert AgedScan(slots, 1, 5, 10, 1, AgedBest(0, 0)) == AgedScan(slots, 1, 5, 10, 2, AgedBest(0, 0));
    assert AgedScan(slots, 1, 5, 10, 0, AgedBest(2, 2)) == AgedBest(0, 0);
    assert HoldWindow(cfg, 5) == 5 && Next(0) == 1;
    assert Pick(cfg, p, 10) == Choose(0, Forced);
    ForcedDestroysExactly(cfg, p, 10, 1);
  }

  /** A first release destroys nothing exactly when some held packet is serially before all others. */
  lemma FirstDestroysNothingIff(cfg: Config, p: Peer, now: nat)
    requires PeerInv(p) && !p.init && Pick(cfg, p, now).Choose?
    ensures (forall i :: !Destroyed(cfg, p, Pick(cfg, p, now).slot, now, i))
            <==> exists m :: SerialMin(p.slots, m)
  {
    PickHeld(cfg, p, now);
    var s := Pick(cfg, p, now).slot;
    forall i | Held(p.slots, i) && i != s
      ensures Destroyed(cfg, p, s, now, i) <==> Cmp(p.slots[i].sn, p.slots[s].sn) <= 0
    {
      DestroyedIff(cfg, p, s, now, i);
    }
    if exists m :: SerialMin(p.slots, m) {
      var m :| SerialMin(p.slots, m);
      FirstScanFindsMin(p.slots, 0, |p.slots|, m);
    }
    if forall i :: !Destroyed(cfg, p, s, now, i) {
      assert SerialMin(p.slots, s);
    }
  }

  /** Held sequences within half the circle of a common origin have a serial minimum. */
  lemma {:induction false} NarrowSpanHasMin(slots: seq<Slot>, origin: u32, n: nat) returns (m: int)
    requires n <= |slots| && Distinct(slots)
    requires forall i :: Held(slots, i) && i < n ==> Cmp(slots[i].sn, origin) >= 0
    ensures m < n
    ensures m < 0 ==> forall i :: Held(slots, i) ==> i >= n
    ensures m >= 0 ==> Held(slots, m) && forall j :: Held(slots, j) && j != m && j < n ==>
                         Cmp(slots[j].sn, slots[m].sn) > 0
  {
    m := -1;
    if n == 0 {
    } else {
      m := NarrowSpanHasMin(slots, origin, n - 1);
      var k := n - 1;
      if slots[k].used && (m < 0 || Cmp(slots[k].sn, slots[m].sn) < 0) {
        forall j | Held(slots, j) && j < k
          ensures Cmp(slots[j].sn, slots[k].sn) > 0
        {
          CmpFromOrigin(slots[j].sn, slots[k].sn, origin);
          CmpFromOrigin(slots[j].sn, slots[m].sn, origin);
          CmpFromOrigin(slots[k].sn, slots[m].sn, origin);
        }
        m := k;
      }
    }
  }

  /** So a first release over a span below 2^31 loses nothing. */
  lemma FirstOverNarrowSpan(cfg: Config, p: Peer, now: nat, origin: u32)
    requires PeerInv(p) && !p.init && Pick(cfg, p, now).Choose?
    requires forall i :: Held(p.slots, i) ==> Cmp(p.slots[i].sn, origin) >= 0
    ensures forall i :: !Destroyed(cfg, p, Pick(cfg, p, now).slot, now, i)
  {
    PickHeld(cfg, p, now);
    var m := NarrowSpanHasMin(p.slots, origin, |p.slots|);
    assert SerialMin(p.slots, m);
    FirstDestroysNothingIff(cfg, p, now);
  }

  /** Three sequences a third of the circle apart have no serial minimum, so the first
      release destroys a packet that was being held. */
  lemma FirstMayDestroy(cfg: Config, a: Dgram, b: Dgram, c: Dgram)
    ensures var slots := [Slot(true, 1, 0, a), Slot(true, 2, 0x6000_0000, b), Slot(true, 3, 0xC000_0000, c)];
            var p := Peer(1, false, 0, 3, 5, 0, 0, 0, 0, slots);
            && PeerInv(p)
            && Pick(cfg, p, 3) == Choose(2, First)
            && Destroyed(cfg, p, 2, 3, 1)
  {
    var slots := [Slot(true, 1, 0, a), Slot(true, 2, 0x6000_0000, b), Slot(true, 3, 0xC000_0000, c)];
    var p := Peer(1, false, 0, 3, 5, 0, 0, 0, 0, slots);
    CountBounds(slots);
    assert FirstScan(slots, 3, 2) == 2;
    assert FirstScan(slots, 2, 0) == 2;
    assert FirstScan(slots, 1, 0) == 2;
  }
}
