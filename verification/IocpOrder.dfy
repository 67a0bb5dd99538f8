/** What the completion-port hook's deliveries do to the cursor of their source, and so the order in which
    sequenced completions of one source reach the game, over every run. */
module IocpOrder {
  import opened Serial
  import opened ReorderModel
  import opened HookModel
  import opened HookOrder
  import opened IocpModel
  import opened IocpConservation

  // ---- A delivery and the cursor ----------------------------------------------------------------

  /** The cursor after a delivery: the later of the two. */
  function Later(was: Cursor, sn: u32): Cursor {
    if was.At? && Cmp(sn, was.sn) <= 0 then was else At(sn)
  }

  predicate HasEntry(c: Ctx, key: nat) { FindKey(c.tbl, key, 0) < |c.tbl| }

  /** Noting a delivery of entry i moves the cursor of its own source to the later of the two, and no other. */
  lemma NoteOrder(c: Ctx, i: nat, sn: u32, ts: nat, now: nat, kind: Kind, key: nat)
    requires Filed(c) && i < |c.tbl| && c.tbl[i].key != 0 && key != 0
    ensures var d := NoteAt(c, i, sn, ts, now, kind);
            && Filed(d) && d.stats.peersReclaimed == c.stats.peersReclaimed && HasEntry(d, key) == HasEntry(c, key)
            && CursorOf(d, key) == if c.tbl[i].key == key then Later(CursorOf(c, key), sn) else CursorOf(c, key)
  {
    var p, q := c.tbl[i], NoteDelivery(c.tbl[i], sn, now);
    forall j | 0 <= j < |q.slots| ensures FiledRight(q.key, q.slots[j]) {
      assert FiledRight(p.key, p.slots[j]);
    }
    ReplaceOrder(c, NoteAt(c, i, sn, ts, now, kind), i, q, key);
    if p.key == key {
      OneEntry(c, key, i);
    }
  }

  lemma AdaptAtOrder(c: Ctx, i: nat, sn: u32, now: nat, key: nat)
    requires Filed(c) && i < |c.tbl| && key != 0
    ensures var d := AdaptAt(c, i, sn, now); Filed(d) && CursorOf(d, key) == CursorOf(c, key)
    ensures var d := AdaptAt(c, i, sn, now); d.stats == c.stats && HasEntry(d, key) == HasEntry(c, key)
  {
    AdaptOrder(c.cfg, c.tbl[i], sn, now);
    ReplaceOrder(c, AdaptAt(c, i, sn, now), i, Adapt(c.cfg, c.tbl[i], sn, now), key);
    if c.tbl[i].key == key {
      OneEntry(c, key, i);
    }
  }

  // ---- What a round hands over --------------------------------------------------------------------

  /** A sequenced completion given to the game, one that was held or one straight from the real call; or not one. */
  datatype Given = Other | Kept(from: Endpoint, sn: u32) | Straight(from: Endpoint, sn: u32)

  /** The first slot from i on that was emptied. */
  function Emptied(held: seq<HeldSlot>, after: seq<HeldSlot>, i: nat): (r: nat)
    requires |held| == |after| && i <= |held|
    ensures i <= r <= |held| && (r < |held| ==> held[r].Holding? && after[r].Free?)
    ensures forall j :: i <= j < r ==> !(held[j].Holding? && after[j].Free?)
    decreases |held| - i
  {
    if i == |held| || (held[i].Holding? && after[i].Free?) then i else Emptied(held, after, i + 1)
  }

  /** Which sequenced completion a round hands over, by what it left of the hold table and what completed. */
  function RoundGives(h: Hook, t: Turn): Given
    requires |h.rx.tbl| > 0 && TurnOk(t)
  {
    var r := Round(h, t);
    if r.Again? || |r.h.held| != |h.held| then Other
    else
      var slot := Emptied(h.held, r.h.held, 0);
      if slot < |h.held| then Kept(h.held[slot].from, h.held[slot].sn)
      else if t.comp.ov != 0 && t.comp.ok && Sequences(h, t) then
        Straight(PacketOf(h, t).from, SeqOf(PacketOf(h, t).data))
      else Other
  }

  /** The peer table after a round's lookups, before anything is noted as delivered. */
  function Looked(h: Hook, t: Turn): Ctx
    requires |h.rx.tbl| > 0 && TurnOk(t)
  {
    var p := PickReady(h.rx, h.held, t.now, 0, |h.held|);
    var oldest := PickOldest(h.held, 0, |h.held|);
    if p.slot < |h.held| then GetPeer(p.rx, h.held[p.slot].from, t.now).0
    else if t.comp.ov == 0 then
      if oldest < |h.held| then GetPeer(p.rx, h.held[oldest].from, t.at).0 else p.rx
    else if t.comp.ok && Sequences(h, t) then GetPeer(p.rx, PacketOf(h, t).from, t.at).0 else p.rx
  }

  /** From table b to d one delivery at most: it takes the cursor of its source, if that has an entry, to the later
      of its sequence and the old cursor; every other cursor stays. */
  ghost predicate Moves(b: Ctx, g: Given, d: Ctx, key: nat) {
    CursorOf(d, key) == if g != Other && KeyOf(g.from) == key && HasEntry(b, key) then Later(CursorOf(b, key), g.sn)
                        else CursorOf(b, key)
  }

  ghost predicate Settled(h: Hook, b: Ctx, g: Given, d: Hook, key: nat) {
    && Filed(d.rx) && d.rx.stats.peersReclaimed == b.stats.peersReclaimed
    && KeptOrLost(h.rx, b, key) && Moves(b, g, d.rx, key)
  }

  lemma {:induction false} ScanOrder(c: Ctx, held: seq<HeldSlot>, now: nat, i: nat, oldest: nat, key: nat)
    requires CtxInv(c) && Filed(c) && key != 0 && HeldOk(held)
    requires i <= |held| && oldest <= |held| && (oldest < |held| ==> held[oldest].Holding?)
    ensures var d := PickReady(c, held, now, i, oldest).rx; Filed(d) && KeptOrLost(c, d, key)
    decreases |held| - i
  {
    if i == |held| {
    } else if held[i].Free? {
      ScanOrder(c, held, now, i + 1, oldest, key);
    } else {
      var h := held[i];
      LookupOrder(c, h.from, now, key);
      LookupKeeps(c, h.from, now);
      var (d, at) := GetPeer(c, h.from, now);
      if !IsSuccessor(d, at, h.sn) {
        var due := now < h.ts || now - h.ts >= HoldFor(d, at);
        ScanOrder(d, held, now, i + 1, if due && (oldest == |held| || h.ts < held[oldest].ts) then i else oldest, key);
      }
    }
  }

  lemma EntryIffFound(c: Ctx, ep: Endpoint, now: nat)
    requires |c.tbl| > 0
    ensures var (d, at) := GetPeer(c, ep, now);
            && (at.Found? <==> HasEntry(d, KeyOf(ep))) && (at.Found? ==> d.tbl[at.at].key == KeyOf(ep))
  {
    LookupFinds(c, ep, now);
  }

  lemma ReleaseSettles(h: Hook, slot: nat, now: nat, kind: Kind, key: nat)
    requires HookInv(h) && Filed(h.rx) && key != 0 && slot < |h.held| && h.held[slot].Holding?
    ensures var b, s := GetPeer(h.rx, h.held[slot].from, now).0, h.held[slot];
            Settled(h, b, Kept(s.from, s.sn), Release(h, slot, now, kind), key)
  {
    var s := h.held[slot];
    LookupOrder(h.rx, s.from, now, key);
    EntryIffFound(h.rx, s.from, now);
    var (b, at) := GetPeer(h.rx, s.from, now);
    if at.Found? {
      NoteOrder(b, at.at, s.sn, s.ts, now, kind, key);
    }
  }

  /** A sequenced completion that is not deferred. */
  function RulingGives(r: Ruling, landed: Landed): Given
    requires |landed.data| >= SEQ_MIN_PAY
  {
    if r.deferred then Other else Straight(landed.from, SeqOf(landed.data))
  }

  lemma RuleAtMoves(h: Hook, i: nat, comp: Completion, landed: Landed, now: nat, key: nat)
    requires Filed(h.rx) && i < |h.rx.tbl| && key != 0 && |landed.data| >= SEQ_MIN_PAY
    requires h.rx.tbl[i].key == KeyOf(landed.from) != 0
    ensures var r := RuleAt(h, i, comp, SeqOf(landed.data), landed.from, now);
            && Filed(r.h.rx) && r.h.rx.stats.peersReclaimed == h.rx.stats.peersReclaimed
            && Moves(h.rx, RulingGives(r, landed), r.h.rx, key)
  {
    var p, sn := h.rx.tbl[i], SeqOf(landed.data);
    if p.key == key {
      OneEntry(h.rx, key, i);
    }
    if !p.init || sn == Next(p.last) {
      NoteOrder(h.rx, i, sn, now, now, if p.init then InOrder else First, key);
    } else if Cmp(sn, p.last) > 0 {
      AdaptAtOrder(h.rx, i, sn, now, key);
      NoteOrder(AdaptAt(h.rx, i, sn, now), i, sn, now, now, Forced, key);
    } else {
      SameTable(h.rx, RuleAt(h, i, comp, sn, landed.from, now).h.rx, key);
    }
  }

  lemma RuleSettles(h: Hook, comp: Completion, landed: Landed, now: nat, key: nat)
    requires HookInv(h) && Filed(h.rx) && key != 0 && |landed.data| >= SEQ_MIN_PAY && KeyOf(landed.from) != 0
    ensures var b, r := GetPeer(h.rx, landed.from, now).0, RuleSequenced(h, comp, landed, now);
            Settled(h, b, RulingGives(r, landed), r.h, key)
  {
    LookupOrder(h.rx, landed.from, now, key);
    EntryIffFound(h.rx, landed.from, now);
    var (b, at) := GetPeer(h.rx, landed.from, now);
    if at.Found? {
      RuleAtMoves(h.(rx := b), at.at, comp, landed, now, key);
    }
  }

  /** Between a table and one it reaches by lookups alone, and on to a settled one. */
  lemma SettledAfter(h: Hook, g: Hook, b: Ctx, given: Given, d: Hook, key: nat)
    requires KeptOrLost(h.rx, g.rx, key) && Settled(g, b, given, d, key)
    ensures Settled(h, b, given, d, key)
  {
  }

  // ---- One round ------------------------------------------------------------------------------------

  lemma FreedIsEmptied(held: seq<HeldSlot>, slot: nat)
    requires slot < |held| && held[slot].Holding?
    ensures Emptied(held, held[slot := Free], 0) == slot
  {
    var i := Emptied(held, held[slot := Free], 0);
    assert i < |held| ==> held[slot := Free][i].Free?;
  }

  lemma NoneEmptied(held: seq<HeldSlot>)
    ensures Emptied(held, held, 0) == |held|
  {
  }

  /** What a round that releases slot gives. */
  lemma ReleaseGives(h: Hook, t: Turn, g: Hook, slot: nat, now: nat, kind: Kind, out: Completion, asked: bool)
    requires |h.rx.tbl| > 0 && TurnOk(t) && g.held == h.held && |g.rx.tbl| > 0
    requires slot < |h.held| && h.held[slot].Holding?
    requires Round(h, t) == Return(Release(g, slot, now, kind), out, asked)
    ensures RoundGives(h, t) == Kept(h.held[slot].from, h.held[slot].sn)
  {
    FreedIsEmptied(h.held, slot);
  }

  /** What a round that gives or defers the real call's completion gives. */
  lemma RulingIsGiven(h: Hook, t: Turn, g: Hook)
    requires |h.rx.tbl| > 0 && TurnOk(t) && g.held == h.held && g.recvs == h.recvs && |g.rx.tbl| > 0 && t.comp.ov != 0
    requires var r := Rule(g, t); Round(h, t) == if r.deferred then Again(r.h) else Return(r.h, t.comp, true)
    ensures RoundGives(h, t) ==
              if t.comp.ok && Sequences(h, t) then RulingGives(Rule(g, t), PacketOf(h, t)) else Other
  {
    NoneEmptied(h.held);
    if !Rule(g, t).deferred {
      RuleLeavesHeld(g, t);
    }
  }

  lemma RuleLeavesHeld(h: Hook, t: Turn)
    requires |h.rx.tbl| > 0 && TurnOk(t) && !Rule(h, t).deferred
    ensures Rule(h, t).h.held == h.held
  {
  }

  lemma {:induction false} RoundSettles(h: Hook, t: Turn, key: nat)
    requires HookInv(h) && Filed(h.rx) && TurnOk(t) && key != 0
    ensures Settled(h, Looked(h, t), RoundGives(h, t), Round(h, t).h, key)
  {
    var p, oldest := PickReady(h.rx, h.held, t.now, 0, |h.held|), PickOldest(h.held, 0, |h.held|);
    var g := h.(rx := p.rx);
    ScanOrder(h.rx, h.held, t.now, 0, |h.held|, key);
    PickKeeps(h.rx, h.held, t.now, 0, |h.held|);
    if p.slot < |h.held| {
      ReleaseGives(h, t, g, p.slot, t.now, p.kind, h.held[p.slot].comp, false);
      ReleaseSettles(g, p.slot, t.now, p.kind, key);
      SettledAfter(h, g, Looked(h, t), RoundGives(h, t), Round(h, t).h, key);
    } else if t.comp.ov == 0 {
      NoneEmptied(h.held);
      if oldest < |h.held| {
        ReleaseGives(h, t, g, oldest, t.at, Forced, h.held[oldest].comp, true);
        ReleaseSettles(g, oldest, t.at, Forced, key);
        SettledAfter(h, g, Looked(h, t), RoundGives(h, t), Round(h, t).h, key);
      }
    } else {
      RulingIsGiven(h, t, g);
      RuledSettles(h, t, g, key);
    }
  }

  lemma RuledSettles(h: Hook, t: Turn, g: Hook, key: nat)
    requires HookInv(h) && HookInv(g) && Filed(h.rx) && Filed(g.rx) && TurnOk(t) && key != 0 && t.comp.ov != 0
    requires PickReady(h.rx, h.held, t.now, 0, |h.held|).slot == |h.held|
    requires g == h.(rx := PickReady(h.rx, h.held, t.now, 0, |h.held|).rx) && KeptOrLost(h.rx, g.rx, key)
    requires RoundGives(h, t) ==
               if t.comp.ok && Sequences(h, t) then RulingGives(Rule(g, t), PacketOf(h, t)) else Other
    ensures Settled(h, Looked(h, t), RoundGives(h, t), Round(h, t).h, key)
  {
    if t.comp.ok && Sequences(h, t) {
      var f := g.(recvs := Untrack(g.recvs, t.comp.ov), completed := g.completed + 1);
      RuleUnfolds(g, f, t);
      RuleSettles(f, t.comp, PacketOf(h, t), t.at, key);
      SettledAfter(h, f, Looked(h, t), RoundGives(h, t), Round(h, t).h, key);
    }
  }

  // ---- One call --------------------------------------------------------------------------------------

  /** Which sequenced completion the rounds from i on hand over. */
  function CallGives(h: Hook, turns: seq<Turn>, i: nat, entered: nat, budget: nat): Given
    requires |h.rx.tbl| > 0 && TurnsOk(turns) && i + Room(h) < |turns|
    decreases Room(h)
  {
    var r := Round(h, turns[i]);
    if r.Return? then RoundGives(h, turns[i])
    else
      DeferTakesRoom(h, turns[i]);
      if turns[i].end - entered > budget * WATCHDOG then Other else CallGives(r.h, turns, i + 1, entered, budget)
  }

  /** The peer table after all their lookups, before that is noted as delivered. */
  function CallLooked(h: Hook, turns: seq<Turn>, i: nat, entered: nat, budget: nat): Ctx
    requires |h.rx.tbl| > 0 && TurnsOk(turns) && i + Room(h) < |turns|
    decreases Room(h)
  {
    var r := Round(h, turns[i]);
    if r.Return? then Looked(h, turns[i])
    else
      DeferTakesRoom(h, turns[i]);
      if turns[i].end - entered > budget * WATCHDOG then r.h.rx else CallLooked(r.h, turns, i + 1, entered, budget)
  }

  lemma DeferKeepsCursor(h: Hook, t: Turn, key: nat)
    requires HookInv(h) && Filed(h.rx) && TurnOk(t) && key != 0 && Round(h, t).Again?
    ensures var g := Round(h, t).h; HookInv(g) && Filed(g.rx) && KeptOrLost(h.rx, g.rx, key)
  {
    RoundSettles(h, t, key);
    RoundKeeps(h, t);
  }

  lemma {:induction false} CallFromSettles(h: Hook, turns: seq<Turn>, i: nat, entered: nat, budget: nat,
                                           last: Completion, key: nat)
    requires HookInv(h) && Filed(h.rx) && TurnsOk(turns) && i + Room(h) < |turns| && key != 0
    ensures Settled(h, CallLooked(h, turns, i, entered, budget), CallGives(h, turns, i, entered, budget),
                    DequeueFrom(h, turns, i, entered, budget, last).h, key)
    decreases Room(h)
  {
    RoundSettles(h, turns[i], key);
    if Round(h, turns[i]).Return? {
    } else {
      DeferTakesRoom(h, turns[i]);
      DeferKeepsCursor(h, turns[i], key);
      var g := Round(h, turns[i]).h;
      if !(turns[i].end - entered > budget * WATCHDOG) {
        CallFromSettles(g, turns, i + 1, entered, budget, last, key);
        SettledAfter(h, g, CallLooked(h, turns, i, entered, budget), CallGives(h, turns, i, entered, budget),
                     DequeueFrom(h, turns, i, entered, budget, last).h, key);
      }
    }
  }

  /** The same for whatever the game calls: nothing is sequenced or looked up while the hook is off. */
  function Gives(h: Hook, op: Op): Given
    requires OpOk(h, op)
  {
    if op.Posting? || !op.ready || h.disabled then Other
    else CallGives(h, op.turns, 0, op.entered, Budget(h.rx.cfg, op.timeout))
  }

  function LookedBy(h: Hook, op: Op): Ctx
    requires OpOk(h, op)
  {
    if op.Posting? || !op.ready || h.disabled then h.rx
    else CallLooked(h, op.turns, 0, op.entered, Budget(h.rx.cfg, op.timeout))
  }

  /** One call, of any hook and any source: its lookups keep the source's cursor or, reclaiming its entry, lose it.
      A sequenced completion it then hands over, held before or straight from the real call, takes the cursor of
      its source, if that has an entry, to the later of its sequence and the old cursor; every other cursor stays. */
  lemma CallOrder(h: Hook, op: Op, key: nat)
    requires HookInv(h) && Filed(h.rx) && OpOk(h, op) && key != 0
    ensures var b, g, d := LookedBy(h, op), Gives(h, op), Step(h, op).rx;
            && Filed(d) && KeptOrLost(h.rx, b, key)
            && CursorOf(d, key) == if g != Other && KeyOf(g.from) == key && HasEntry(b, key)
                                   then Later(CursorOf(b, key), g.sn) else CursorOf(b, key)
  {
    if op.Asking? && op.ready && !h.disabled {
      CallFromSettles(h, op.turns, 0, op.entered, Budget(h.rx.cfg, op.timeout), op.last, key);
    }
  }

  /** What is handed over, completion by completion: a held one is free and as it was; anything else is what the
      real call returned, and sequenced unless it timed out, failed or is none of our receives. */
  lemma GivenIsHandedOver(h: Hook, t: Turn)
    requires |h.rx.tbl| > 0 && TurnOk(t) && Round(h, t).Return?
    ensures var r, g := Round(h, t), RoundGives(h, t);
            && (g.Kept? ==> exists slot, ts :: 0 <= slot < |h.held| && h.held[slot] == Holding(r.out, g.sn, ts, g.from)
                                               && r.h.held == h.held[slot := Free])
            && (!g.Kept? ==> r.h.held == h.held && r.out == t.comp && r.asked)
            && (g.Straight? <==> !g.Kept? && t.comp.ov != 0 && t.comp.ok && Sequences(h, t))
            && (g.Straight? ==> g.from == PacketOf(h, t).from && g.sn == SeqOf(PacketOf(h, t).data))
  {
    var p, oldest := PickReady(h.rx, h.held, t.now, 0, |h.held|), PickOldest(h.held, 0, |h.held|);
    var g := h.(rx := p.rx);
    if p.slot < |h.held| {
      ReleaseGives(h, t, g, p.slot, t.now, p.kind, h.held[p.slot].comp, false);
      assert h.held[p.slot] == Holding(Round(h, t).out, h.held[p.slot].sn, h.held[p.slot].ts, h.held[p.slot].from);
    } else if t.comp.ov == 0 {
      NoneEmptied(h.held);
      if oldest < |h.held| {
        ReleaseGives(h, t, g, oldest, t.at, Forced, h.held[oldest].comp, true);
        assert h.held[oldest] == Holding(Round(h, t).out, h.held[oldest].sn, h.held[oldest].ts, h.held[oldest].from);
      }
    } else {
      RulingIsGiven(h, t, g);
      RuleLeavesHeld(g, t);
    }
  }

  // ---- Whole runs ---------------------------------------------------------------------------------------

  lemma {:induction false} RunFiled(ops: seq<Op>, hs: seq<Hook>, n: nat)
    requires IsRunFrom(ops, hs) && Filed(hs[0].rx) && n <= |ops|
    ensures HookInv(hs[n]) && Filed(hs[n].rx)
  {
    if n == 0 {
    } else {
      RunFiled(ops, hs, n - 1);
      var h, op := hs[n - 1], ops[n - 1];
      assert StepAt(ops, hs, n - 1);
      CallOrder(h, op, 1);
      if op.Asking? {
        DequeueConserves(h, op.ready, op.turns, op.entered, op.timeout, op.last, Completion(false, 0, 0, 0));
      }
    }
  }

  /** The sequence operation j hands over for that source if it lies ahead of the cursor, or there is none yet. */
  ghost function FreshAt(ops: seq<Op>, hs: seq<Hook>, key: nat, j: nat): seq<u32>
    requires j < |ops| && |hs| == |ops| + 1 && StepAt(ops, hs, j)
  {
    var b, g := LookedBy(hs[j], ops[j]), Gives(hs[j], ops[j]);
    if g != Other && KeyOf(g.from) == key && HasEntry(b, key)
       && (CursorOf(b, key).At? ==> Cmp(g.sn, CursorOf(b, key).sn) > 0)
    then [g.sn] else []
  }

  /** And operations m up to n, in order. */
  ghost function FreshTo(ops: seq<Op>, hs: seq<Hook>, key: nat, m: nat, n: nat): seq<u32>
    requires IsRunFrom(ops, hs) && n <= |ops|
    decreases n
  {
    if n <= m then []
    else
      assert StepAt(ops, hs, n - 1);
      FreshTo(ops, hs, key, m, n - 1) + FreshAt(ops, hs, key, n - 1)
  }

  /** The lookups of operation j do not reclaim an entry from which that source was served. */
  ghost predicate KeepsEntry(ops: seq<Op>, hs: seq<Hook>, key: nat, j: nat) {
    && j < |ops| && |hs| == |ops| + 1 && StepAt(ops, hs, j)
    && (CursorOf(hs[j].rx, key).At? ==> CursorOf(LookedBy(hs[j], ops[j]), key).At?)
  }

  /** A sequence number counted on without wrapping from the first one's own value. */
  function Counted(sns: seq<u32>, i: nat): int
    requires i < |sns|
  {
    if i == 0 then sns[0] else Counted(sns, i - 1) + Cmp(sns[i], sns[i - 1])
  }

  /** The sequences are the image of increasing naturals, in steps below half the circle. */
  ghost predicate Rising(sns: seq<u32>) {
    && (forall i :: 0 <= i < |sns| ==> Counted(sns, i) >= 0 && Counted(sns, i) % MOD == sns[i])
    && (forall i, j :: 0 <= i < j < |sns| ==> Counted(sns, i) < Counted(sns, j))
    && (forall i :: 1 <= i < |sns| ==> Counted(sns, i) < Counted(sns, i - 1) + HALF)
  }

  ghost predicate Ahead(sns: seq<u32>, i: nat)
    requires i < |sns|
  {
    i > 0 ==> Cmp(sns[i], sns[i - 1]) > 0
  }

  ghost predicate Linked(sns: seq<u32>, cur: Cursor) {
    && (forall i :: 0 <= i < |sns| ==> Ahead(sns, i))
    && cur == if sns == [] then NoCursor else At(sns[|sns| - 1])
  }

  lemma LinkedGrows(sns: seq<u32>, more: seq<u32>, all: seq<u32>, was: Cursor, cur: Cursor)
    requires Linked(sns, was) && all == sns + more && |more| <= 1
    requires more == [] ==> cur == was
    requires more != [] ==> cur == At(more[0]) && (was.At? ==> Cmp(more[0], was.sn) > 0)
    ensures Linked(all, cur)
  {
    if more == [] {
      assert all == sns;
    } else {
      assert more == [more[0]];
      forall i | 0 <= i < |all| ensures Ahead(all, i) {
        assert i < |sns| ==> Ahead(sns, i);
      }
    }
  }

  lemma {:induction false} CountedIsImage(sns: seq<u32>, i: nat)
    requires (forall k :: 0 <= k < |sns| ==> Ahead(sns, k)) && i < |sns|
    ensures Counted(sns, i) >= 0 && Counted(sns, i) % MOD == sns[i]
    ensures i > 0 ==> 0 < Counted(sns, i) - Counted(sns, i - 1) < HALF
  {
    if i == 0 {
    } else {
      CountedIsImage(sns, i - 1);
      assert Ahead(sns, i);
      ReorderRuns.ModStep(Counted(sns, i - 1), sns[i - 1], sns[i]);
    }
  }

  lemma {:induction false} CountedIncreases(sns: seq<u32>, i: nat, j: nat)
    requires (forall k :: 0 <= k < |sns| ==> Ahead(sns, k)) && i < j < |sns|
    ensures Counted(sns, i) < Counted(sns, j)
    decreases j
  {
    CountedIsImage(sns, j);
    if i == j - 1 {
    } else {
      CountedIncreases(sns, i, j - 1);
    }
  }

  lemma LinkedRises(sns: seq<u32>, cur: Cursor)
    requires Linked(sns, cur)
    ensures Rising(sns)
  {
    forall i | 0 <= i < |sns|
      ensures Counted(sns, i) >= 0 && Counted(sns, i) % MOD == sns[i]
      ensures i > 0 ==> Counted(sns, i) < Counted(sns, i - 1) + HALF
    {
      CountedIsImage(sns, i);
    }
    forall i, j | 0 <= i < j < |sns| ensures Counted(sns, i) < Counted(sns, j) {
      CountedIncreases(sns, i, j);
    }
  }

  /** From one operation to the next the cursor moves exactly to what is fresh. */
  lemma FreshMoves(ops: seq<Op>, hs: seq<Hook>, key: nat, j: nat, next: nat)
    requires IsRunFrom(ops, hs) && Filed(hs[0].rx) && key != 0 && KeepsEntry(ops, hs, key, j) && next == j + 1
    ensures var was, more, cur := CursorOf(hs[j].rx, key), FreshAt(ops, hs, key, j), CursorOf(hs[next].rx, key);
            && |more| <= 1 && (more == [] ==> cur == was)
            && (more != [] ==> cur == At(more[0]) && (was.At? ==> Cmp(more[0], was.sn) > 0))
  {
    RunFiled(ops, hs, j);
    CallOrder(hs[j], ops[j], key);
  }

  lemma {:induction false} FreshLinked(ops: seq<Op>, hs: seq<Hook>, key: nat, m: nat, n: nat)
    requires IsRunFrom(ops, hs) && Filed(hs[0].rx) && key != 0 && m <= n <= |ops|
    requires CursorOf(hs[m].rx, key) == NoCursor && forall j :: m <= j < n ==> KeepsEntry(ops, hs, key, j)
    ensures Linked(FreshTo(ops, hs, key, m, n), CursorOf(hs[n].rx, key))
    decreases n
  {
    if n == m {
    } else {
      var j := n - 1;
      FreshLinked(ops, hs, key, m, j);
      assert KeepsEntry(ops, hs, key, j);
      FreshMoves(ops, hs, key, j, n);
      LinkedGrows(FreshTo(ops, hs, key, m, j), FreshAt(ops, hs, key, j), FreshTo(ops, hs, key, m, n),
                  CursorOf(hs[j].rx, key), CursorOf(hs[n].rx, key));
    }
  }

  /** In every run of the hook, the sequenced completions of one source that the game gets ahead of the source's
      cursor, held before or not, are in order from when it has no cursor until its entry is reclaimed: their
      sequences are the image of increasing numbers, and the last of them is the cursor. */
  lemma {:induction false} FreshInOrder(ops: seq<Op>, hs: seq<Hook>, key: nat, m: nat, n: nat)
    requires IsRunFrom(ops, hs) && Filed(hs[0].rx) && key != 0 && m <= n <= |ops|
    requires CursorOf(hs[m].rx, key) == NoCursor && forall j :: m <= j < n ==> KeepsEntry(ops, hs, key, j)
    ensures var sns := FreshTo(ops, hs, key, m, n);
            Rising(sns) && CursorOf(hs[n].rx, key) == if sns == [] then NoCursor else At(sns[|sns| - 1])
  {
    FreshLinked(ops, hs, key, m, n);
    LinkedRises(FreshTo(ops, hs, key, m, n), CursorOf(hs[n].rx, key));
  }

  // ---- A filled gap -----------------------------------------------------------------------------------------

  /** The source's entry awaits sn and was active in the last thirty seconds. */
  ghost predicate Awaits(c: Ctx, key: nat, sn: u32, now: nat) {
    var at := FindKey(c.tbl, key, 0);
    at < |c.tbl| && c.tbl[at].init && sn == Next(c.tbl[at].last) && now - c.tbl[at].lastActivity < PEER_IDLE_MS
  }

  /** No lookup at that time takes such an entry away. */
  lemma LookupKeepsAwaiting(c: Ctx, ep: Endpoint, key: nat, sn: u32, now: nat)
    requires |c.tbl| > 0 && key != 0 && Awaits(c, key, sn, now)
    ensures Awaits(GetPeer(c, ep, now).0, key, sn, now)
  {
    FirstWithKey(GetPeer(c, ep, now).0.tbl, key, FindKey(c.tbl, key, 0), 0);
  }

  lemma {:induction false} ScanFindsSuccessor(c: Ctx, held: seq<HeldSlot>, now: nat, i: nat, oldest: nat, slot: nat)
    requires |c.tbl| > 0 && i <= slot < |held| && oldest <= |held| && (oldest < |held| ==> held[oldest].Holding?)
    requires held[slot].Holding? && KeyOf(held[slot].from) != 0
    requires Awaits(c, KeyOf(held[slot].from), held[slot].sn, now)
    ensures PickReady(c, held, now, i, oldest).kind == InOrder
    decreases |held| - i
  {
    if held[i].Free? {
      ScanFindsSuccessor(c, held, now, i + 1, oldest, slot);
    } else {
      var h := held[i];
      var (d, at) := GetPeer(c, h.from, now);
      LookupKeepsAwaiting(c, h.from, KeyOf(held[slot].from), held[slot].sn, now);
      LookupFinds(c, h.from, now);
      if !IsSuccessor(d, at, h.sn) {
        var due := now < h.ts || now - h.ts >= HoldFor(d, at);
        ScanFindsSuccessor(d, held, now, i + 1,
                           if due && (oldest == |held| || h.ts < held[oldest].ts) then i else oldest, slot);
      }
    }
  }

  /** Once what a held completion waits for has gone out, the next call makes no real call: it hands over a held
      completion that is exactly one ahead of its own source's cursor. */
  lemma {:induction false} FilledGapGoesNext(h: Hook, op: Op, slot: nat)
    requires HookInv(h) && Filed(h.rx) && OpOk(h, op) && op.Asking? && op.ready && !h.disabled
    requires slot < |h.held| && h.held[slot].Holding?
    requires Awaits(h.rx, KeyOf(h.held[slot].from), h.held[slot].sn, op.turns[0].now)
    ensures var r, g, b := Answer(h, op), Gives(h, op), LookedBy(h, op);
            && r.used == 0 && r.waits == [] && !r.dogged && r.h.inOrder == h.inOrder + 1
            && g.Kept? && CursorOf(b, KeyOf(g.from)).At? && Cmp(g.sn, CursorOf(b, KeyOf(g.from)).sn) == 1
            && exists k, ts :: 0 <= k < |h.held| && h.held[k] == Holding(r.out, g.sn, ts, g.from)
                               && r.h.held == h.held[k := Free]
  {
    var t := op.turns[0];
    var p := PickReady(h.rx, h.held, t.now, 0, |h.held|);
    ScanFindsSuccessor(h.rx, h.held, t.now, 0, |h.held|, slot);
    PickedInOrder(h.rx, h.held, t.now, 0, |h.held|);
    ReleaseGives(h, t, h.(rx := p.rx), p.slot, t.now, p.kind, h.held[p.slot].comp, false);
    GivenIsHandedOver(h, t);
    TouchKeepsCursor(p.rx, h.held[p.slot].from, t.now);
  }

  lemma TouchKeepsCursor(c: Ctx, ep: Endpoint, now: nat)
    requires |c.tbl| > 0 && HasEntry(c, KeyOf(ep))
    ensures CursorOf(GetPeer(c, ep, now).0, KeyOf(ep)) == CursorOf(c, KeyOf(ep))
  {
    LookupFinds(c, ep, now);
  }
}
