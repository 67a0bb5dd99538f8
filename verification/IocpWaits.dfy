/** What the completion-port hook holds since when, why it lets it go, what it counts, and that its windows never
    adapt. */
module IocpWaits {
  import opened Serial
  import opened ReorderModel
  import opened HookModel
  import opened HookOrder
  import opened IocpModel
  import opened IocpConservation
  import opened IocpTiming
  import opened IocpOrder

  // ---- Why something held goes out ---------------------------------------------------------------

  /** Held for its source's window, or from a later clock reading than this one. */
  ghost predicate Due(c: Ctx, s: HeldSlot, now: nat)
    requires s.Holding?
  {
    now < s.ts || now - s.ts >= OwnHold(c, KeyOf(s.from))
  }

  /** The packet its source awaits. */
  ghost predicate Awaited(c: Ctx, s: HeldSlot)
    requires s.Holding?
  {
    CursorOf(c, KeyOf(s.from)).At? && Cmp(s.sn, CursorOf(c, KeyOf(s.from)).sn) == 1
  }

  /** What the scan has settled on so far was due when it looked, and has been since. */
  ghost predicate Chosen(c: Ctx, held: seq<HeldSlot>, now: nat, slot: nat)
    requires |c.tbl| > 0 && slot <= |held|
  {
    slot < |held| ==>
      && held[slot].Holding? && KeyOf(held[slot].from) != 0
      && Seen(c, KeyOf(held[slot].from), now) && Due(c, held[slot], now)
  }

  lemma {:induction false} ScanPicksDue(c: Ctx, held: seq<HeldSlot>, now: nat, i: nat, oldest: nat)
    requires CtxInv(c) && HeldOk(held) && i <= |held| && oldest <= |held| && (oldest < |held| ==> held[oldest].Holding?)
    requires Chosen(c, held, now, oldest)
    ensures var p := PickReady(c, held, now, i, oldest);
            p.slot < |held| && p.kind == Forced ==> Due(p.rx, held[p.slot], now)
    ensures PickReady(c, held, now, i, oldest).kind == InOrder || PickReady(c, held, now, i, oldest).kind == Forced
    decreases |held| - i
  {
    if i == |held| {
    } else if held[i].Free? {
      ScanPicksDue(c, held, now, i + 1, oldest);
    } else {
      var h := held[i];
      LookupSees(c, h.from, now);
      LookupKeeps(c, h.from, now);
      var (d, at) := GetPeer(c, h.from, now);
      if oldest < |held| {
        LookupKeepsSeen(c, h.from, now, KeyOf(held[oldest].from));
      }
      if !IsSuccessor(d, at, h.sn) {
        var due := now < h.ts || now - h.ts >= HoldFor(d, at);
        ScanPicksDue(d, held, now, i + 1, if due && (oldest == |held| || h.ts < held[oldest].ts) then i else oldest);
      }
    }
  }

  lemma LookupKeepsCursor(c: Ctx, ep: Endpoint, now: nat, key: nat)
    requires |c.tbl| > 0 && key != 0 && Seen(c, key, now)
    ensures CursorOf(GetPeer(c, ep, now).0, key) == CursorOf(c, key)
  {
    var d, at := GetPeer(c, ep, now).0, FindKey(c.tbl, key, 0);
    if at < |c.tbl| {
      FirstWithKey(d.tbl, key, at, 0);
    } else {
      assert forall j :: 0 <= j < |d.tbl| ==> d.tbl[j].key == c.tbl[j].key;
    }
  }

  lemma {:induction false} ScanKeepsCursor(c: Ctx, held: seq<HeldSlot>, now: nat, i: nat, oldest: nat, key: nat)
    requires |c.tbl| > 0 && key != 0 && Seen(c, key, now)
    requires i <= |held| && oldest <= |held| && (oldest < |held| ==> held[oldest].Holding?)
    ensures CursorOf(PickReady(c, held, now, i, oldest).rx, key) == CursorOf(c, key)
    decreases |held| - i
  {
    if i == |held| {
    } else if held[i].Free? {
      ScanKeepsCursor(c, held, now, i + 1, oldest, key);
    } else {
      var h := held[i];
      var (d, at) := GetPeer(c, h.from, now);
      LookupKeepsSeen(c, h.from, now, key);
      LookupKeepsCursor(c, h.from, now, key);
      if !IsSuccessor(d, at, h.sn) {
        var due := now < h.ts || now - h.ts >= HoldFor(d, at);
        ScanKeepsCursor(d, held, now, i + 1, if due && (oldest == |held| || h.ts < held[oldest].ts) then i else oldest,
                        key);
      }
    }
  }

  /** A scan that settles for anything else, or nothing, has passed no awaited packet. */
  lemma {:induction false} ScanMissesNone(c: Ctx, held: seq<HeldSlot>, now: nat, i: nat, oldest: nat, j: nat)
    requires CtxInv(c) && HeldOk(held) && i <= j < |held| && oldest <= |held|
    requires oldest < |held| ==> held[oldest].Holding?
    requires PickReady(c, held, now, i, oldest).kind != InOrder && held[j].Holding?
    ensures !Awaited(PickReady(c, held, now, i, oldest).rx, held[j])
    decreases |held| - i
  {
    if held[i].Free? {
      ScanMissesNone(c, held, now, i + 1, oldest, j);
    } else {
      var h := held[i];
      LookupSees(c, h.from, now);
      LookupKeeps(c, h.from, now);
      LookupFinds(c, h.from, now);
      var (d, at) := GetPeer(c, h.from, now);
      var due := now < h.ts || now - h.ts >= HoldFor(d, at);
      var pick := if due && (oldest == |held| || h.ts < held[oldest].ts) then i else oldest;
      if j == i {
        ScanKeepsCursor(d, held, now, i + 1, pick, KeyOf(h.from));
      } else {
        ScanMissesNone(d, held, now, i + 1, pick, j);
      }
    }
  }

  lemma {:induction false} PickNone(c: Ctx, held: seq<HeldSlot>, now: nat, i: nat, oldest: nat)
    requires |c.tbl| > 0 && i <= |held| && oldest <= |held| && (oldest < |held| ==> held[oldest].Holding?)
    ensures PickReady(c, held, now, i, oldest).slot == |held| ==> PickReady(c, held, now, i, oldest).kind == Forced
    decreases |held| - i
  {
    if i == |held| {
    } else if held[i].Free? {
      PickNone(c, held, now, i + 1, oldest);
    } else {
      var h := held[i];
      var (d, at) := GetPeer(c, h.from, now);
      if !IsSuccessor(d, at, h.sn) {
        var due := now < h.ts || now - h.ts >= HoldFor(d, at);
        PickNone(d, held, now, i + 1, if due && (oldest == |held| || h.ts < held[oldest].ts) then i else oldest);
      }
    }
  }

  /** A round hands over something held without a real call exactly when something held is its source's awaited
      packet or has been held for its source's window; and then one such. */
  lemma HandsOverIff(h: Hook, t: Turn)
    requires HookInv(h) && TurnOk(t)
    ensures var r, c := Round(h, t), Scanned(h, t.now);
            && (r.Return? && !r.asked ==>
                  exists j :: 0 <= j < |h.held| && h.held[j].Holding? && r.out == h.held[j].comp
                              && r.h.held == h.held[j := Free]
                              && (Awaited(c, h.held[j]) || Due(c, h.held[j], t.now)))
            && (r.Again? || r.asked ==> forall j :: 0 <= j < |h.held| && h.held[j].Holding? ==>
                  !Awaited(c, h.held[j]) && !Due(c, h.held[j], t.now))
  {
    var p := PickReady(h.rx, h.held, t.now, 0, |h.held|);
    ScanPicksDue(h.rx, h.held, t.now, 0, |h.held|);
    if p.slot < |h.held| {
      if p.kind == InOrder {
        PickedInOrder(h.rx, h.held, t.now, 0, |h.held|);
      }
      assert h.held[p.slot].Holding?;
    } else {
      NoneReadyIsYoung(h.rx, h.held, t.now, 0, |h.held|);
      PickNone(h.rx, h.held, t.now, 0, |h.held|);
      forall j | 0 <= j < |h.held| && h.held[j].Holding? ensures !Awaited(p.rx, h.held[j]) {
        ScanMissesNone(h.rx, h.held, t.now, 0, |h.held|, j);
      }
    }
  }

  // ---- Since when something is held --------------------------------------------------------------------

  /** A round that defers holds exactly what the real call returned, under its packet's source and sequence, from
      the moment it was back. */
  lemma DeferredIsHeld(h: Hook, t: Turn)
    requires |h.rx.tbl| > 0 && TurnOk(t) && Round(h, t).Again?
    ensures t.comp.ov != 0 && Sequences(h, t)
    ensures var p := PacketOf(h, t);
            exists j :: 0 <= j < |h.held| && h.held[j].Free?
                        && Round(h, t).h.held == h.held[j := Holding(t.comp, SeqOf(p.data), t.at, p.from)]
  {
    var slot := FindFreeSlot(h.held, 0);
    assert h.held[slot].Free?;
  }

  /** A turn before that one returned what the slot holds, at the time it says. */
  ghost predicate CameWith(turns: seq<Turn>, i: nat, n: nat, s: HeldSlot)
    requires s.Holding?
  {
    exists k :: i <= k < n && k < |turns| && turns[k].comp == s.comp && turns[k].at == s.ts
  }

  ghost predicate Traced(held: seq<HeldSlot>, after: seq<HeldSlot>, turns: seq<Turn>, i: nat, n: nat) {
    |after| == |held|
    && forall j :: 0 <= j < |held| && after[j].Holding? ==> after[j] == held[j] || CameWith(turns, i, n, after[j])
  }

  lemma RoundTraces(h: Hook, turns: seq<Turn>, i: nat)
    requires |h.rx.tbl| > 0 && i < |turns| && TurnOk(turns[i])
    ensures Traced(h.held, Round(h, turns[i]).h.held, turns, i, i + 1)
  {
    var r := Round(h, turns[i]);
    if r.Again? {
      DeferredIsHeld(h, turns[i]);
      forall j | 0 <= j < |h.held| && r.h.held[j].Holding?
        ensures r.h.held[j] == h.held[j] || CameWith(turns, i, i + 1, r.h.held[j])
      {
        assert turns[i].comp == turns[i].comp;
      }
    } else {
      GivenIsHandedOver(h, turns[i]);
    }
  }

  lemma TracedTwice(a: seq<HeldSlot>, b: seq<HeldSlot>, c: seq<HeldSlot>, turns: seq<Turn>, i: nat, m: nat, n: nat)
    requires i <= m <= n && Traced(a, b, turns, i, m) && Traced(b, c, turns, m, n)
    ensures Traced(a, c, turns, i, n)
  {
    forall j | 0 <= j < |a| && c[j].Holding? ensures c[j] == a[j] || CameWith(turns, i, n, c[j]) {
      if c[j] != b[j] {
        assert CameWith(turns, m, n, c[j]);
      } else if b[j] != a[j] {
        assert CameWith(turns, i, m, b[j]);
      }
    }
  }

  lemma TracedLonger(a: seq<HeldSlot>, b: seq<HeldSlot>, turns: seq<Turn>, i: nat, m: nat, n: nat)
    requires i <= m <= n && Traced(a, b, turns, i, m)
    ensures Traced(a, b, turns, i, n)
  {
    forall j | 0 <= j < |a| && b[j].Holding? ensures b[j] == a[j] || CameWith(turns, i, n, b[j]) {
      assert b[j] != a[j] ==> CameWith(turns, i, m, b[j]);
    }
  }

  lemma {:induction false} CallTraces(h: Hook, turns: seq<Turn>, i: nat, entered: nat, budget: nat, last: Completion)
    requires |h.rx.tbl| > 0 && TurnsOk(turns) && i + Room(h) < |turns|
    ensures Traced(h.held, DequeueFrom(h, turns, i, entered, budget, last).h.held, turns, i, |turns|)
    decreases Room(h)
  {
    var m, n := i + 1, |turns|;
    RoundTraces(h, turns, i);
    var g := Round(h, turns[i]).h;
    TracedLonger(h.held, g.held, turns, i, m, n);
    if Round(h, turns[i]).Return? {
    } else {
      DeferTakesRoom(h, turns[i]);
      if !(turns[i].end - entered > budget * WATCHDOG) {
        CallTraces(g, turns, m, entered, budget, last);
        TracedTwice(h.held, g.held, DequeueFrom(g, turns, m, entered, budget, last).h.held, turns, i, m, n);
      }
    }
  }

  /** One of the first n operations obtained it, at the time it says. */
  ghost predicate Obtained(ops: seq<Op>, n: nat, s: HeldSlot)
    requires s.Holding?
  {
    exists k :: 0 <= k < n && k < |ops| && ops[k].Asking? && CameWith(ops[k].turns, 0, |ops[k].turns|, s)
  }

  lemma AllFree(held: seq<HeldSlot>)
    requires forall s :: s in held ==> s.Free?
    ensures forall j :: 0 <= j < |held| ==> held[j].Free?
  {
    forall j | 0 <= j < |held| ensures held[j].Free? {
      assert held[j] in held;
    }
  }

  /** In every run from a hook that holds nothing, everything held was returned by an earlier real call, and its
      wait is counted from when that was back. */
  lemma {:induction false} HeldSinceObtained(ops: seq<Op>, hs: seq<Hook>, n: nat, j: nat)
    requires IsRun(ops, hs) && n <= |ops| && j < |hs[n].held| && hs[n].held[j].Holding?
    ensures Obtained(ops, n, hs[n].held[j])
  {
    AllFree(hs[0].held);
    if n == 0 {
    } else {
      var h, op := hs[n - 1], ops[n - 1];
      assert StepAt(ops, hs, n - 1);
      if op.Asking? && op.ready && !h.disabled {
        CallTraces(h, op.turns, 0, op.entered, Budget(h.rx.cfg, op.timeout), op.last);
      }
      if j < |h.held| && h.held[j] == hs[n].held[j] {
        HeldSinceObtained(ops, hs, n - 1, j);
      }
    }
  }

  // ---- What is counted -------------------------------------------------------------------------------------

  /** How far ahead of its source's cursor it is, if there is one. */
  function GapTo(c: Ctx, key: nat, sn: u32): int
    requires CursorOf(c, key).At?
  {
    Cmp(sn, CursorOf(c, key).sn)
  }

  /** It comes next after its source's cursor. */
  predicate IsNext(c: Ctx, key: nat, sn: u32) { CursorOf(c, key).At? && GapTo(c, key, sn) == 1 }

  /** How a delivery, given the table its lookups left, is counted: as in order, forced or neither. */
  predicate CountsInOrder(b: Ctx, g: Given) {
    match g
    case Other => false
    case Kept(from, sn) => IsNext(b, KeyOf(from), sn)
    case Straight(from, sn) => !CursorOf(b, KeyOf(from)).At? || GapTo(b, KeyOf(from), sn) == 1
  }

  predicate CountsForced(b: Ctx, g: Given) {
    match g
    case Other => false
    case Kept(from, sn) => !IsNext(b, KeyOf(from), sn)
    case Straight(from, sn) => CursorOf(b, KeyOf(from)).At? && GapTo(b, KeyOf(from), sn) > 1
  }

  /** The game has had it, or a later one. */
  predicate CountsStale(b: Ctx, g: Given) {
    g.Straight? && CursorOf(b, KeyOf(g.from)).At? && GapTo(b, KeyOf(g.from), g.sn) <= 0
  }

  ghost predicate RoundCounted(h: Hook, t: Turn, d: Hook, asked: bool, again: bool, g: Given, b: Ctx)
    requires |h.rx.tbl| > 0 && TurnOk(t)
  {
    && d.completed == h.completed + Bit(asked && t.comp.ov != 0 && t.comp.ok && Sequences(h, t))
    && d.deferred == h.deferred + Bit(again) && d.posted == h.posted
    && d.inOrder == h.inOrder + Bit(CountsInOrder(b, g)) && d.forced == h.forced + Bit(CountsForced(b, g))
    && d.rx.stats.stale == b.stats.stale + Bit(CountsStale(b, g))
  }

  lemma ReleaseCounts(h: Hook, t: Turn, p: Pick, slot: nat, now: nat, kind: Kind, key: nat)
    requires HookInv(h) && Filed(h.rx) && TurnOk(t) && p == PickReady(h.rx, h.held, t.now, 0, |h.held|)
    requires slot < |h.held| && h.held[slot].Holding? && key == KeyOf(h.held[slot].from)
    requires kind == InOrder ==> p.slot == slot && p.kind == InOrder && now == t.now
    requires kind != InOrder ==> p.kind != InOrder
    ensures IsNext(GetPeer(p.rx, h.held[slot].from, now).0, key, h.held[slot].sn) <==> kind == InOrder
  {
    var s := h.held[slot];
    ScanOrder(h.rx, h.held, t.now, 0, |h.held|, key);
    PickKeeps(h.rx, h.held, t.now, 0, |h.held|);
    LookupOrder(p.rx, s.from, now, key);
    if kind == InOrder {
      PickedInOrder(h.rx, h.held, t.now, 0, |h.held|);
      TouchKeepsCursor(p.rx, s.from, now);
    } else {
      ScanMissesNone(h.rx, h.held, t.now, 0, |h.held|, slot);
    }
  }

  /** What a round that releases slot counts. */
  lemma ReleaseRound(h: Hook, t: Turn, g: Hook, slot: nat, now: nat, kind: Kind, asked: bool, given: Given, b: Ctx)
    requires |h.rx.tbl| > 0 && TurnOk(t) && |g.rx.tbl| > 0 && g == h.(rx := g.rx)
    requires slot < |h.held| && h.held[slot].Holding? && (asked ==> t.comp.ov == 0)
    requires given == Kept(h.held[slot].from, h.held[slot].sn) && b == GetPeer(g.rx, h.held[slot].from, now).0
    requires IsNext(b, KeyOf(h.held[slot].from), h.held[slot].sn) <==> kind == InOrder
    ensures RoundCounted(h, t, Release(g, slot, now, kind), asked, false, given, b)
  {
  }

  lemma RuleCounts(h: Hook, comp: Completion, landed: Landed, now: nat)
    requires HookInv(h) && Filed(h.rx) && |landed.data| >= SEQ_MIN_PAY && KeyOf(landed.from) != 0
    ensures var b, r := GetPeer(h.rx, landed.from, now).0, RuleSequenced(h, comp, landed, now);
            var g := RulingGives(r, landed);
            && r.h.completed == h.completed && r.h.posted == h.posted && r.h.deferred == h.deferred + Bit(r.deferred)
            && r.h.inOrder == h.inOrder + Bit(CountsInOrder(b, g)) && r.h.forced == h.forced + Bit(CountsForced(b, g))
            && r.h.rx.stats.stale == b.stats.stale + Bit(CountsStale(b, g))
  {
    EntryIffFound(h.rx, landed.from, now);
    LookupOrder(h.rx, landed.from, now, KeyOf(landed.from));
    var (b, at) := GetPeer(h.rx, landed.from, now);
    if at.Found? {
      OneEntry(b, KeyOf(landed.from), at.at);
      NextIsOne(SeqOf(landed.data), b.tbl[at.at].last);
    }
  }

  /** What each round counts: a completed sequenced receive, a deferral, and a delivery as in order or forced by
      where its source's cursor then was. */
  lemma RoundCounts(h: Hook, t: Turn)
    requires HookInv(h) && Filed(h.rx) && TurnOk(t)
    ensures var r := Round(h, t);
            RoundCounted(h, t, r.h, r.Again? || r.asked, r.Again?, RoundGives(h, t), Looked(h, t))
  {
    var p, oldest := PickReady(h.rx, h.held, t.now, 0, |h.held|), PickOldest(h.held, 0, |h.held|);
    var g := h.(rx := p.rx);
    ScanPicksDue(h.rx, h.held, t.now, 0, |h.held|);
    if p.slot < |h.held| {
      ReleaseCounts(h, t, p, p.slot, t.now, p.kind, KeyOf(h.held[p.slot].from));
      ReleaseGives(h, t, g, p.slot, t.now, p.kind, h.held[p.slot].comp, false);
      ReleaseRound(h, t, g, p.slot, t.now, p.kind, false, RoundGives(h, t), Looked(h, t));
    } else if t.comp.ov == 0 {
      NoneEmptied(h.held);
      if oldest < |h.held| {
        PickNone(h.rx, h.held, t.now, 0, |h.held|);
        ReleaseCounts(h, t, p, oldest, t.at, Forced, KeyOf(h.held[oldest].from));
        ReleaseGives(h, t, g, oldest, t.at, Forced, h.held[oldest].comp, true);
        ReleaseRound(h, t, g, oldest, t.at, Forced, true, RoundGives(h, t), Looked(h, t));
      }
    } else {
      RulingIsGiven(h, t, g);
      RulingCounts(h, t, g);
    }
  }

  lemma RulingCounts(h: Hook, t: Turn, g: Hook)
    requires HookInv(h) && Filed(h.rx) && TurnOk(t) && t.comp.ov != 0
    requires PickReady(h.rx, h.held, t.now, 0, |h.held|).slot == |h.held|
    requires g == h.(rx := PickReady(h.rx, h.held, t.now, 0, |h.held|).rx)
    requires RoundGives(h, t) ==
               if t.comp.ok && Sequences(h, t) then RulingGives(Rule(g, t), PacketOf(h, t)) else Other
    ensures var r := Round(h, t);
            RoundCounted(h, t, r.h, r.Again? || r.asked, r.Again?, RoundGives(h, t), Looked(h, t))
  {
    if t.comp.ok && Sequences(h, t) {
      var f := g.(recvs := Untrack(g.recvs, t.comp.ov), completed := g.completed + 1);
      ScanOrder(h.rx, h.held, t.now, 0, |h.held|, 1);
      PickKeeps(h.rx, h.held, t.now, 0, |h.held|);
      RuleUnfolds(g, f, t);
      RuleCounts(f, t.comp, PacketOf(h, t), t.at);
    }
  }

  /** The table's own counters after a delivery of that kind which waited w. */
  ghost predicate Noted(s: Stats, d: Stats, kind: Kind, w: nat) {
    && d.first == s.first + Bit(kind == First) && d.inOrder == s.inOrder + Bit(kind == InOrder)
    && d.forced == s.forced + Bit(kind == Forced) && d.holds == NoteHold(s.holds, w)
  }

  ghost predicate Unnoted(s: Stats, d: Stats) {
    d.first == s.first && d.inOrder == s.inOrder && d.forced == s.forced && d.holds == s.holds
  }

  /** A delivery to a source with an entry is noted once; one to a source without an entry, or of something the
      source's cursor has passed straight from the real call, is not. */
  ghost predicate DeliveryNoted(b: Ctx, d: Ctx, g: Given, w: nat) {
    match g
    case Other => Unnoted(b.stats, d.stats)
    case Kept(from, sn) =>
      if HasEntry(b, KeyOf(from))
      then Noted(b.stats, d.stats, if IsNext(b, KeyOf(from), sn) then InOrder else Forced, w)
      else Unnoted(b.stats, d.stats)
    case Straight(from, sn) =>
      if !HasEntry(b, KeyOf(from)) || CountsStale(b, g) then Unnoted(b.stats, d.stats)
      else
        Noted(b.stats, d.stats,
              if !CursorOf(b, KeyOf(from)).At? then First
              else if IsNext(b, KeyOf(from), sn) then InOrder else Forced, 0)
  }

  lemma ReleaseNotes(h: Hook, slot: nat, now: nat, kind: Kind)
    requires |h.rx.tbl| > 0 && slot < |h.held| && h.held[slot].Holding? && (kind == InOrder || kind == Forced)
    requires var s := h.held[slot];
             IsNext(GetPeer(h.rx, s.from, now).0, KeyOf(s.from), s.sn) <==> kind == InOrder
    ensures var s := h.held[slot];
            DeliveryNoted(GetPeer(h.rx, s.from, now).0, Release(h, slot, now, kind).rx, Kept(s.from, s.sn),
                          Waited(s.ts, now))
  {
    EntryIffFound(h.rx, h.held[slot].from, now);
  }

  lemma RuleNotes(h: Hook, comp: Completion, landed: Landed, now: nat)
    requires HookInv(h) && Filed(h.rx) && |landed.data| >= SEQ_MIN_PAY && KeyOf(landed.from) != 0
    ensures var b, r := GetPeer(h.rx, landed.from, now).0, RuleSequenced(h, comp, landed, now);
            DeliveryNoted(b, r.h.rx, RulingGives(r, landed), 0)
  {
    EntryIffFound(h.rx, landed.from, now);
    LookupOrder(h.rx, landed.from, now, KeyOf(landed.from));
    var (b, at) := GetPeer(h.rx, landed.from, now);
    if at.Found? {
      OneEntry(b, KeyOf(landed.from), at.at);
      NextIsOne(SeqOf(landed.data), b.tbl[at.at].last);
      assert Waited(now, now) == 0;
    }
  }

  /** How long what a round released had been held. */
  function HeldFor(h: Hook, t: Turn): nat
    requires |h.rx.tbl| > 0 && TurnOk(t) && |Round(h, t).h.held| == |h.held|
  {
    var r := Round(h, t);
    var slot := Emptied(h.held, r.h.held, 0);
    if slot < |h.held| && r.Return? then Waited(h.held[slot].ts, if r.asked then t.at else t.now) else 0
  }

  /** What each round notes in the shared table: a delivery as first, in order or forced by where its source's
      cursor then was, after a wait counted from when a held completion was obtained. */
  lemma RoundNotes(h: Hook, t: Turn)
    requires HookInv(h) && Filed(h.rx) && TurnOk(t)
    ensures |Round(h, t).h.held| == |h.held|
    ensures DeliveryNoted(Looked(h, t), Round(h, t).h.rx, RoundGives(h, t), HeldFor(h, t))
  {
    var p, oldest := PickReady(h.rx, h.held, t.now, 0, |h.held|), PickOldest(h.held, 0, |h.held|);
    var g := h.(rx := p.rx);
    ScanPicksDue(h.rx, h.held, t.now, 0, |h.held|);
    if p.slot < |h.held| {
      ReleaseCounts(h, t, p, p.slot, t.now, p.kind, KeyOf(h.held[p.slot].from));
      ReleaseGives(h, t, g, p.slot, t.now, p.kind, h.held[p.slot].comp, false);
      FreedIsEmptied(h.held, p.slot);
      ReleaseNotes(g, p.slot, t.now, p.kind);
    } else if t.comp.ov == 0 {
      NoneEmptied(h.held);
      if oldest < |h.held| {
        PickNone(h.rx, h.held, t.now, 0, |h.held|);
        ReleaseCounts(h, t, p, oldest, t.at, Forced, KeyOf(h.held[oldest].from));
        ReleaseGives(h, t, g, oldest, t.at, Forced, h.held[oldest].comp, true);
        FreedIsEmptied(h.held, oldest);
        ReleaseNotes(g, oldest, t.at, Forced);
      }
    } else {
      RulingIsGiven(h, t, g);
      RulingNotes(h, t, g);
    }
  }

  lemma RulingNotes(h: Hook, t: Turn, g: Hook)
    requires HookInv(h) && Filed(h.rx) && TurnOk(t) && t.comp.ov != 0
    requires PickReady(h.rx, h.held, t.now, 0, |h.held|).slot == |h.held|
    requires g == h.(rx := PickReady(h.rx, h.held, t.now, 0, |h.held|).rx)
    requires RoundGives(h, t) ==
               if t.comp.ok && Sequences(h, t) then RulingGives(Rule(g, t), PacketOf(h, t)) else Other
    ensures |Round(h, t).h.held| == |h.held|
    ensures DeliveryNoted(Looked(h, t), Round(h, t).h.rx, RoundGives(h, t), HeldFor(h, t))
  {
    if t.comp.ok && Sequences(h, t) {
      var f := g.(recvs := Untrack(g.recvs, t.comp.ov), completed := g.completed + 1);
      ScanOrder(h.rx, h.held, t.now, 0, |h.held|, 1);
      PickKeeps(h.rx, h.held, t.now, 0, |h.held|);
      RuleUnfolds(g, f, t);
      RuleNotes(f, t.comp, PacketOf(h, t), t.at);
    }
  }

  // ---- The windows never adapt -----------------------------------------------------------------------------

  /** The window an entry is claimed with. */
  function FirstWindow(cfg: Config): nat { if cfg.adapt then cfg.winMin else cfg.winMax }

  ghost predicate Standing(c: Ctx) {
    forall i :: 0 <= i < |c.tbl| && c.tbl[i].key != 0 ==> c.tbl[i].win == FirstWindow(c.cfg)
  }

  lemma LookupStands(c: Ctx, ep: Endpoint, now: nat)
    requires |c.tbl| > 0 && Standing(c)
    ensures Standing(GetPeer(c, ep, now).0) && GetPeer(c, ep, now).0.cfg == c.cfg
  {
  }

  lemma NoteStands(c: Ctx, i: nat, sn: u32, ts: nat, now: nat, kind: Kind)
    requires i < |c.tbl| && Standing(c)
    ensures Standing(NoteAt(c, i, sn, ts, now, kind)) && NoteAt(c, i, sn, ts, now, kind).cfg == c.cfg
  {
  }

  lemma {:induction false} ScanStands(c: Ctx, held: seq<HeldSlot>, now: nat, i: nat, oldest: nat)
    requires |c.tbl| > 0 && Standing(c)
    requires i <= |held| && oldest <= |held| && (oldest < |held| ==> held[oldest].Holding?)
    ensures Standing(PickReady(c, held, now, i, oldest).rx) && PickReady(c, held, now, i, oldest).rx.cfg == c.cfg
    decreases |held| - i
  {
    if i == |held| {
    } else if held[i].Free? {
      ScanStands(c, held, now, i + 1, oldest);
    } else {
      var h := held[i];
      LookupStands(c, h.from, now);
      var (d, at) := GetPeer(c, h.from, now);
      if !IsSuccessor(d, at, h.sn) {
        var due := now < h.ts || now - h.ts >= HoldFor(d, at);
        ScanStands(d, held, now, i + 1, if due && (oldest == |held| || h.ts < held[oldest].ts) then i else oldest);
      }
    }
  }

  /** The one place the hook adapts a window is an arrival beyond the awaited packet, where that does nothing. */
  lemma AdaptationIsIdle(cfg: Config, p: Peer, sn: u32, now: nat)
    requires p.init && Cmp(sn, p.last) > 1
    ensures Adapt(cfg, p, sn, now) == p
  {
    NextIsOne(sn, p.last);
  }

  lemma RuleAtStands(h: Hook, i: nat, comp: Completion, sn: u32, from: Endpoint, now: nat)
    requires i < |h.rx.tbl| && Standing(h.rx)
    ensures var r := RuleAt(h, i, comp, sn, from, now); Standing(r.h.rx) && r.h.rx.cfg == h.rx.cfg
  {
    var p := h.rx.tbl[i];
    NextIsOne(sn, p.last);
    if !p.init || sn == Next(p.last) {
      NoteStands(h.rx, i, sn, now, now, if p.init then InOrder else First);
    } else if Cmp(sn, p.last) > 0 {
      AdaptationIsIdle(h.rx.cfg, p, sn, now);
      assert AdaptAt(h.rx, i, sn, now).tbl == h.rx.tbl;
      NoteStands(AdaptAt(h.rx, i, sn, now), i, sn, now, now, Forced);
    }
  }

  lemma ReleaseStands(h: Hook, slot: nat, now: nat, kind: Kind)
    requires |h.rx.tbl| > 0 && Standing(h.rx) && slot < |h.held| && h.held[slot].Holding?
    ensures Standing(Release(h, slot, now, kind).rx) && Release(h, slot, now, kind).rx.cfg == h.rx.cfg
  {
    var s := h.held[slot];
    LookupStands(h.rx, s.from, now);
    var (c, at) := GetPeer(h.rx, s.from, now);
    if at.Found? {
      NoteStands(c, at.at, s.sn, s.ts, now, kind);
    }
  }

  lemma RoundStands(h: Hook, t: Turn)
    requires |h.rx.tbl| > 0 && TurnOk(t) && Standing(h.rx)
    ensures Standing(Round(h, t).h.rx) && Round(h, t).h.rx.cfg == h.rx.cfg
  {
    ScanStands(h.rx, h.held, t.now, 0, |h.held|);
    var p, oldest := PickReady(h.rx, h.held, t.now, 0, |h.held|), PickOldest(h.held, 0, |h.held|);
    var g := h.(rx := p.rx);
    if p.slot < |h.held| {
      ReleaseStands(g, p.slot, t.now, p.kind);
    } else if t.comp.ov == 0 {
      if oldest < |h.held| {
        ReleaseStands(g, oldest, t.at, Forced);
      }
    } else if t.comp.ok && Sequences(h, t) {
      RuleStands(g, t);
    }
  }

  lemma RuleStands(h: Hook, t: Turn)
    requires |h.rx.tbl| > 0 && TurnOk(t) && Standing(h.rx) && t.comp.ok && Sequences(h, t)
    ensures Standing(Rule(h, t).h.rx) && Rule(h, t).h.rx.cfg == h.rx.cfg
  {
    var f := h.(recvs := Untrack(h.recvs, t.comp.ov), completed := h.completed + 1);
    RuleUnfolds(h, f, t);
    var landed := PacketOf(h, t);
    LookupStands(f.rx, landed.from, t.at);
    var (c, at) := GetPeer(f.rx, landed.from, t.at);
    if at.Found? {
      RuleAtStands(f.(rx := c), at.at, t.comp, SeqOf(landed.data), landed.from, t.at);
    }
  }

  lemma {:induction false} CallStands(h: Hook, turns: seq<Turn>, i: nat, entered: nat, budget: nat, last: Completion)
    requires |h.rx.tbl| > 0 && TurnsOk(turns) && i + Room(h) < |turns| && Standing(h.rx)
    ensures var d := DequeueFrom(h, turns, i, entered, budget, last).h.rx; Standing(d) && d.cfg == h.rx.cfg
    decreases Room(h)
  {
    RoundStands(h, turns[i]);
    if Round(h, turns[i]).Return? {
    } else {
      DeferTakesRoom(h, turns[i]);
      if !(turns[i].end - entered > budget * WATCHDOG) {
        CallStands(Round(h, turns[i]).h, turns, i + 1, entered, budget, last);
      }
    }
  }

  /** In every run of the completion path each source's window is the one its entry was claimed with, adaptive or
      not: late packets do not widen it, and releases do not narrow it. */
  lemma {:induction false} WindowsNeverAdapt(ops: seq<Op>, hs: seq<Hook>, n: nat)
    requires IsRunFrom(ops, hs) && n <= |ops| && Standing(hs[0].rx)
    ensures hs[n].rx.cfg == hs[0].rx.cfg
    ensures forall i :: 0 <= i < |hs[n].rx.tbl| && hs[n].rx.tbl[i].key != 0 ==>
              hs[n].rx.tbl[i].win == if hs[0].rx.cfg.adapt then hs[0].rx.cfg.winMin else hs[0].rx.cfg.winMax
  {
    if n == 0 {
    } else {
      WindowsNeverAdapt(ops, hs, n - 1);
      var h, op := hs[n - 1], ops[n - 1];
      assert StepAt(ops, hs, n - 1);
      if op.Asking? && op.ready && !h.disabled {
        CallStands(h, op.turns, 0, op.entered, Budget(h.rx.cfg, op.timeout), op.last);
      }
    }
  }
}
